# H2 external authentication, modelled in Dafny

H2 can authenticate database users against an external source instead of its
own password table. This project models the core of that mechanism:

- **`AuthenticationManager`** is the process-wide switch. It decides whether a
  login goes to the internal authenticator or to a pluggable one chosen by a
  selector string. It installs the pluggable one lazily and cleans the
  credentials on every exit.
- **`DefaultAuthenticator`** is the pluggable authenticator shipped with H2:
  1. pick the credentials validator by realm and validate;
  2. register the user on first login;
  3. revoke the user's temporary role grants;
  4. collect roles from the user-to-roles mappers;
  5. resolve or create those roles, grant them temporarily, and commit.
- The value helpers around it:
  - `UserBuilder` (the record a new external user gets);
  - `AuthenticatorBuilder` (the extended selector vocabulary);
  - `H2AuthConfig` and `CredentialsValidatorConfig` (configuration holders with lazily created lists);
  - three plug-ins: `StaticRolesMapper`, `FixedPasswordCredentialsValidator` and `LdapCredentialsValidator`.

One module stands for each source class.

- Classes whose fields the source updates are Dafny classes with the same fields.
- The database catalog is the class `Catalog.Database`. It holds the users,
  the roles, the object-id allocator and a commit counter.
- `Database.State()` takes a value snapshot of it (`Catalog.Catalog`). The specifications are stated over these snapshots.
- A user is a value with a grant map from role name to `Right(temporary)`.
- Validators and mappers are `Plugins.PluginRef` values (class name and properties).
- The record `Plugins.Plugins` gives their behaviour as functions:
  - `loads`: the class can be instantiated and configured;
  - `validate`: accept, reject or throw;
  - `mapRoles`: null, a role set, or throw.
- Java exceptions are results: `AuthResult` is a user, `null` (not
  authenticated) or `Failed(AuthError)`; configuration errors are
  `Option`/`Result` values.

The second loop of `updateRoles` iterates a `HashSet`, whose order is
unspecified. The model picks the next name nondeterministically and proves
the loop against the order-independent relation `RoleReconciliation.Reconciled`.

Main properties proved:

- **Order of checks in `authenticate`.** An unknown user without registration is refused before any validator runs. An unknown realm, a rejection and a validator exception leave the catalog untouched.
- **Successful login.**
  - The user is created only if missing, and otherwise is the same record.
  - Its temporary grants are exactly this login's resolved roles that it does not hold persistently.
  - Its persistent grants are untouched, no other user changes, and the catalog stays consistent.
- **Repeated login** changes nothing but the commit count.
- **Configuration.** `configureFrom` refuses duplicate realms. It keeps the old validators when the realm registry fails, and the old mappers when the mapper list fails.
- **Manager.** `clean` runs exactly once and last; internal users skip `init`; `init` happens at most once.
- **Selector vocabularies.** The builder's vocabulary agrees with the manager's except on "0", "1" and "enable".
- **Plug-in behaviour.**
  - `%u` substitution fills the bind-DN template.
  - The LDAP URL's port reads back as the configured port.
  - The fixed-password validator accepts the password it was built from.

Two behaviours of the code are worth spelling out; the model follows the code:

- Realm names are matched exactly as given: `validators.get(getRealm())` (`DefaultAuthenticator.java:187`) applies no case folding. The tests register the realm as `testRealm`, through an `addRealm` that `DefaultAuthenticator.java` does not declare, and connect with the upper-cased `AUTHREALM=TESTREALM` (`TestJaasAuthentication.java:65`, `:87`). Under the exact lookup, that login finds its validator only if both names are brought to one case elsewhere; that code is not part of this model.
- The hash-based fixed password hashes the *hex-decoded `hash` property* with the salt (`FixedPasswordCredentialsValidator.java:54`), just as it hashes the supplied password's bytes (`:42`). So the property holds the password's bytes in hex, not a hash of them (`FixedPassword.ConfiguredHashAcceptsDecodedBytes`).

## Model

| member | source | states |
|---|---|---|
| AuthInfo.FullyQualifiedName | h2/src/test/org/h2/test/auth/TestJaasAuthentication.java:127-128 | the catalog name of an external user is upper-case: `USER@REALM`, or the upper-cased user name without a realm |
| Catalog.RevokeTemporaryRights | h2/src/main/org/h2/security/auth/DefaultAuthenticator.java:204 | revoking keeps exactly the non-temporary grants, with their rights, and leaves no temporary grant |
| Catalog.RevokeIdempotent | h2/src/main/org/h2/security/auth/DefaultAuthenticator.java:204 | revoking twice is revoking once |
| Catalog.Database.FindUser | h2/src/main/org/h2/security/auth/DefaultAuthenticator.java:183 | a user is found exactly when one is filed under that name, and it is that user |
| Catalog.Database.FindRole | h2/src/main/org/h2/security/auth/DefaultAuthenticator.java:160 | a role is found exactly when one is filed under that name |
| Catalog.Database.AllocateObjectId | h2/src/main/org/h2/security/auth/DefaultAuthenticator.java:163 | returns the next object id and advances the allocator by one |
| Catalog.Database.AddRole | h2/src/main/org/h2/security/auth/DefaultAuthenticator.java:164 | files the role under its name, nothing else changes |
| Catalog.Database.AddUser | h2/src/main/org/h2/security/auth/DefaultAuthenticator.java:201 | files the user under its name, nothing else changes |
| Catalog.Database.Commit | h2/src/main/org/h2/security/auth/DefaultAuthenticator.java:207 | counts one commit of the system session, nothing else changes |
| UserBuilding.BuildUser | h2/src/main/org/h2/security/auth/UserBuilder.java:15-20 | the new user is named by the fully qualified name, not a system user, has the one-byte hash {-1}, is temporary exactly when not persistent, and has a freshly allocated id when persistent (allocator advanced) and -1 otherwise (allocator untouched) |
| UserBuilding.BuiltUserFits | h2/src/main/org/h2/security/auth/UserBuilder.java:16 | filing the built user keeps the catalog consistent; a persistent user's id is used by no other user or role |
| RoleReconciliation.CandidateRoles | h2/src/main/org/h2/security/auth/DefaultAuthenticator.java:149-155 | the candidate roles are the union of the non-null mapper results; the collection fails, with the first thrower's exception, exactly when a mapper throws |
| RoleReconciliation.ReconcileStep | h2/src/main/org/h2/security/auth/DefaultAuthenticator.java:156-176 | processing one more role name, in any order, keeps the relation "roles created for exactly the creatable missing names with fresh distinct ids, temporary grants for exactly the resolved names not yet held, nothing else changed" |
| RoleReconciliation.ReconcileSkipped | h2/src/main/org/h2/security/auth/DefaultAuthenticator.java:157-169 | an empty name, or a missing role that may not be created, is skipped silently: nothing changes and no error arises |
| RoleReconciliation.GrantTemporaryRoles | h2/src/main/org/h2/security/auth/DefaultAuthenticator.java:170-175 | added grants are all temporary and are exactly the new roles; revoking them gives back the grants held before |
| RoleReconciliation.ReconciledGrants | h2/src/main/org/h2/security/auth/DefaultAuthenticator.java:204-205 | after revoke then reconcile, the temporary roles are exactly the resolved roles not held persistently, and the persistent grants are unchanged |
| RoleReconciliation.ReconciledWellFormed | h2/src/main/org/h2/security/auth/DefaultAuthenticator.java:160-175 | reconciliation keeps the catalog consistent: every granted role exists, every object id below the allocator |
| RoleReconciliation.EmptyNameSkipped | h2/src/main/org/h2/security/auth/DefaultAuthenticator.java:157-159 | the empty (or null) role name is never granted and never created |
| DefaultAuth.RealmRegistrySucceeds | h2/src/main/org/h2/security/auth/DefaultAuthenticator.java:127-135 | the realm registry is built exactly when every validator class loads and no realm is named twice |
| DefaultAuth.RealmRegistryContents | h2/src/main/org/h2/security/auth/DefaultAuthenticator.java:127-136 | a built registry maps each entry's realm to that entry's validator and holds no other realm |
| DefaultAuth.LoadableRegistryFailsOnlyOnDuplicate | h2/src/main/org/h2/security/auth/DefaultAuthenticator.java:132-134 | with every class loadable, a failed build is a duplicate-realm failure |
| DefaultAuth.DuplicateRealmRefused | h2/src/main/org/h2/security/auth/DefaultAuthenticator.java:132-134 | two validators for one realm make the configuration fail with "Duplicate realm" |
| DefaultAuth.MapperList | h2/src/main/org/h2/security/auth/DefaultAuthenticator.java:137-144 | the mapper list is built exactly when every mapper class loads, and then holds the configured mappers in order |
| DefaultAuth.DefaultAuthenticator.constructor | h2/src/main/org/h2/security/auth/DefaultAuthenticator.java:39-45 | a new authenticator has no validators, no mappers and every flag false |
| DefaultAuth.DefaultAuthenticator.SetAllowUserRegistration | h2/src/main/org/h2/security/auth/DefaultAuthenticator.java:63-65 | the getter returns what was set |
| DefaultAuth.DefaultAuthenticator.DefaultConfiguration | h2/src/main/org/h2/security/auth/DefaultAuthenticator.java:112-122 | missing roles are not created, registration is allowed, the validators are replaced by the single JAAS realm "h2", and the realm-name mapper is appended to, not replacing, the existing mappers |
| DefaultAuth.DefaultAuthenticator.ConfigureFrom | h2/src/main/org/h2/security/auth/DefaultAuthenticator.java:124-145 | the flags are taken first; the validators are replaced only by a completely built registry (otherwise both lists stay as they were) and the mappers only by a completely built list, after the validators |
| DefaultAuth.DefaultAuthenticator.ConfigureFromConfig | h2/src/main/org/h2/security/auth/DefaultAuthenticator.java:124-145 | on the configuration object: its getters create the missing lists and leave its value unchanged; the flags, validators and mappers are then configured from that value as above |
| DefaultAuth.DefaultAuthenticator.BuildRealmRegistry | h2/src/main/org/h2/security/auth/DefaultAuthenticator.java:127-135 | the loop computes the realm registry, stopping at the first class that does not load or realm already registered |
| DefaultAuth.DefaultAuthenticator.BuildMapperList | h2/src/main/org/h2/security/auth/DefaultAuthenticator.java:137-143 | the loop computes the mapper list, stopping at the first class that does not load |
| DefaultAuth.DefaultAuthenticator.CollectRoles | h2/src/main/org/h2/security/auth/DefaultAuthenticator.java:149-155 | the loop computes the candidate roles of the current mappers, stopping at the first mapper that throws |
| DefaultAuth.DefaultAuthenticator.ReconcileRole | h2/src/main/org/h2/security/auth/DefaultAuthenticator.java:157-175 | one loop pass: skip the empty name, create the missing role when allowed (id from the allocator, not a system role), grant it temporarily when the user does not hold it |
| DefaultAuth.DefaultAuthenticator.GrantRoles | h2/src/main/org/h2/security/auth/DefaultAuthenticator.java:156-176 | after the loop, the catalog is reconciled for all candidate roles, whatever the iteration order |
| DefaultAuth.DefaultAuthenticator.UpdateRoles | h2/src/main/org/h2/security/auth/DefaultAuthenticator.java:147-177 | a mapper exception leaves the catalog untouched; otherwise the catalog is reconciled for the mappers' candidate roles |
| DefaultAuth.DefaultAuthenticator.Authenticate | h2/src/main/org/h2/security/auth/DefaultAuthenticator.java:180-210 | the method follows `Authenticates`: the checks in source order, the validator consulted at most once and only past the user and realm checks, then registration, revocation, reconciliation and one commit |
| DefaultAuth.PrepareSpec | h2/src/main/org/h2/security/auth/DefaultAuthenticator.java:198-204 | before roles are updated the user exists with its persistent grants only; a missing user is the one `buildUser` makes; no other user, no role, no commit changes |
| DefaultAuth.UnknownUserRefusedFirst | h2/src/main/org/h2/security/auth/DefaultAuthenticator.java:182-186 | an unknown user without registration is refused as "not found" without consulting any validator and without changing the catalog |
| DefaultAuth.RefusalHasNoSideEffects | h2/src/main/org/h2/security/auth/DefaultAuthenticator.java:187-197 | an unconfigured realm, rejected credentials or a validator exception leave the catalog unchanged (no user created, no grant revoked or added, no commit) |
| DefaultAuth.SuccessfulAuthentication | h2/src/main/org/h2/security/auth/DefaultAuthenticator.java:182-209 | on success the validator accepted; exactly the fully qualified name is added to the users if it was missing, otherwise the same user is returned; no other user changes; one commit; the catalog stays consistent; temporary grants are exactly the resolved roles of this call not held persistently; persistent grants are untouched |
| DefaultAuth.RepeatedAuthenticationIsStable | h2/src/main/org/h2/security/auth/DefaultAuthenticator.java:198-209 | a second login with the same credentials succeeds, returns the same user and changes nothing but the commit count: no temporary grants accumulate, no role is created again |
| DefaultAuth.ReconcileTwice | h2/src/main/org/h2/security/auth/DefaultAuthenticator.java:204-205 | revoking and reconciling the same candidates again restores the same users, roles and allocator |
| Manager.ManagerClassName | h2/src/main/org/h2/security/auth/AuthenticationManager.java:51-70 | null, "", "no", "off", "disable" and "false" give no class; "yes", "on", "true" and "default" give the default authenticator; any other string, matched case-sensitively, is its own class name |
| Manager.ManagerClassNameIdempotent | h2/src/main/org/h2/security/auth/AuthenticationManager.java:51-70 | a class name the switch produced maps to itself |
| Manager.FailedInstallKeepsState | h2/src/main/org/h2/security/auth/AuthenticationManager.java:45-49 | when installing fails (null authenticator, class not instantiable, init exception) the authenticator and the initialised flag keep their old values |
| Manager.DisabledSelectorFails | h2/src/main/org/h2/security/auth/AuthenticationManager.java:76-84 | a disabling selector passes null on, which fails with the null-authenticator exception and installs nothing |
| Manager.CleanRunsOnceLast | h2/src/main/org/h2/security/auth/AuthenticationManager.java:100-114 | `clean` runs exactly once, as the last event, on every path out of `authenticate` |
| Manager.InternalPathSkipsInit | h2/src/main/org/h2/security/auth/AuthenticationManager.java:102-105 | with internal users allowed and no realm, the internal authenticator answers and neither `init` nor the pluggable authenticator runs |
| Manager.InitAtMostOnce | h2/src/main/org/h2/security/auth/AuthenticationManager.java:89-95 | after a successful `init` the manager is initialised and every further `init` does nothing |
| Manager.StepsKeepValid | h2/src/main/org/h2/security/auth/AuthenticationManager.java:45-49 | an initialised manager always has an authenticator installed, across every operation |
| Manager.NoAuthenticatorUnreachable | h2/src/main/org/h2/security/auth/AuthenticationManager.java:106-110 | in a valid manager every call either runs an authenticator or fails because installing one raised an exception; the "no Authenticator available" branch is never taken |
| Manager.AuthenticationManager.constructor | h2/src/main/org/h2/security/auth/AuthenticationManager.java:34-39 | a new manager has no authenticator and is not initialised |
| Manager.AuthenticationManager.SetAuthenticator | h2/src/main/org/h2/security/auth/AuthenticationManager.java:45-49 | the authenticator's `init` runs before it is installed; null fails at once |
| Manager.AuthenticationManager.SetAuthenticatorFromValue | h2/src/main/org/h2/security/auth/AuthenticationManager.java:76-84 | maps the selector, instantiates the class, installs it; every exception is returned converted |
| Manager.AuthenticationManager.Init | h2/src/main/org/h2/security/auth/AuthenticationManager.java:89-95 | does nothing once initialised, otherwise installs from the system property |
| Manager.AuthenticationManager.Authenticate | h2/src/main/org/h2/security/auth/AuthenticationManager.java:100-114 | internal path, lazy init, "no Authenticator available", or delegation, each followed by `clean` |
| Builder.BuilderClassName | h2/src/main/org/h2/security/auth/AuthenticatorBuilder.java:7-29 | null, "", "0", "no", "off", "disable" and "false" give no class; "1", "yes", "on", "enable", "true" and "default" give the default authenticator; any other string is its own class name |
| Builder.BuildAuthenticator | h2/src/main/org/h2/security/auth/AuthenticatorBuilder.java:31-34 | no authenticator exactly when the selector maps to no class; otherwise an instance of the mapped class or the instantiation exception |
| Builder.BuildWithoutClassMeansNoLoading | h2/src/main/org/h2/security/auth/AuthenticatorBuilder.java:33 | when no class is named the result does not depend on class loading |
| Builder.VocabulariesAgree | h2/src/main/org/h2/security/auth/AuthenticatorBuilder.java:7-29 | the builder and the manager map every selector alike except "0", "1" and "enable", which the manager takes as class names |
| Builder.BuilderExtendsManagerKeywords | h2/src/main/org/h2/security/auth/AuthenticatorBuilder.java:11-25 | every selector the manager disables or maps to the default authenticator, the builder maps the same way |
| StaticRoles.RolesFrom | h2/src/main/org/h2/security/auth/impl/StaticRolesMapper.java:29 | the role set holds exactly the pieces of the `roles` property split on commas (duplicates collapse) |
| StaticRoles.RolesArePieces | h2/src/main/org/h2/security/auth/impl/StaticRolesMapper.java:29 | no role contains a comma, and the non-empty roles are exactly the non-empty pieces between commas |
| StaticRoles.MissingPropertyGrantsNothing | h2/src/main/org/h2/security/auth/impl/StaticRolesMapper.java:29 | without the property the set is {""}, which grants and creates no role |
| StaticRoles.StaticRolesMapper.Configure | h2/src/main/org/h2/security/auth/impl/StaticRolesMapper.java:28-30 | `roles` becomes the set read from the property |
| StaticRoles.StaticRolesMapper.MapUserToRoles | h2/src/main/org/h2/security/auth/impl/StaticRolesMapper.java:33-35 | returns the configured set (null before configuration) and changes nothing |
| StaticRoles.StaticRolesMapper.MapsEveryoneAlike | h2/src/main/org/h2/security/auth/impl/StaticRolesMapper.java:33-35 | the result does not depend on who logs in |
| Strings.JavaSplitPieces | h2/src/main/org/h2/security/auth/impl/StaticRolesMapper.java:29 | the non-empty results of `split` are exactly the non-empty pieces between separators |
| Strings.JoinSplitAll | h2/src/main/org/h2/security/auth/impl/StaticRolesMapper.java:29 | joining the pieces back with the separator gives the original string |
| FixedPassword.CheckCredentials | h2/src/main/org/h2/security/auth/impl/FixedPasswordCredentialsValidator.java:38-43 | with a clear password, accepted exactly when the supplied password equals it, never an exception; otherwise accepted exactly when the supplied password hashed with the salt equals the stored hash, and a null pointer exception exactly when the supplied password or the salt is missing |
| FixedPassword.ClearPasswordIgnoresHash | h2/src/main/org/h2/security/auth/impl/FixedPasswordCredentialsValidator.java:39-41 | with a clear password, salt and hash play no part |
| FixedPassword.BuiltValidatorAcceptsItsPassword | h2/src/main/org/h2/security/auth/impl/FixedPasswordCredentialsValidator.java:31-34 | a validator built from a password accepts that password |
| FixedPassword.ConfiguredHashAcceptsDecodedBytes | h2/src/main/org/h2/security/auth/impl/FixedPasswordCredentialsValidator.java:52-55 | a configured `hash` accepts a password whose bytes are the hex-decoded property |
| FixedPassword.FixedPasswordCredentialsValidator.FromPassword | h2/src/main/org/h2/security/auth/impl/FixedPasswordCredentialsValidator.java:31-34 | the password is not kept in clear: a random salt and the salted hash are stored |
| FixedPassword.FixedPasswordCredentialsValidator.Configure | h2/src/main/org/h2/security/auth/impl/FixedPasswordCredentialsValidator.java:46-56 | `password` keeps its value unless given; `salt` and `hash` change only when given; it fails exactly when a given salt or hash is malformed hex or a hash is given with no salt, after the earlier fields are set |
| Ldap.LdapUrl | h2/src/main/org/h2/security/auth/impl/LdapCredentialsValidator.java:41 | the URL is `ldap` or `ldaps`, then `://host:`, then the decimal port |
| Ldap.UrlPortReadsBack | h2/src/main/org/h2/security/auth/impl/LdapCredentialsValidator.java:40-41 | the port field of the URL parses back to the configured port |
| Ldap.UrlSchemeShowsSecurity | h2/src/main/org/h2/security/auth/impl/LdapCredentialsValidator.java:41 | the scheme is "ldaps" exactly for a secure connection |
| Ldap.PatternWithoutPlaceholder | h2/src/main/org/h2/security/auth/impl/LdapCredentialsValidator.java:52 | a bind-DN pattern without `%u` is used unchanged |
| Ldap.PatternFilled | h2/src/main/org/h2/security/auth/impl/LdapCredentialsValidator.java:52 | every `%u` in the pattern is replaced by the user name: a pattern whose parts between the `%u`s contain no `%u` (they may contain `%`) becomes those parts joined by the user name |
| Ldap.BindEnvironment | h2/src/main/org/h2/security/auth/impl/LdapCredentialsValidator.java:48-53 | the bind environment names `com.sun.jndi.ldap.LdapCtxFactory` as the context factory, and gives the URL, simple authentication, the substituted principal and the password; a null value makes it fail |
| Ldap.LdapCredentialsValidator.Configure | h2/src/main/org/h2/security/auth/impl/LdapCredentialsValidator.java:36-42 | `bindDnPattern` and `host` are required; `secure` defaults to true; the port defaults to 636 when secure and 389 otherwise, and an explicit port wins; the URL is built from them; on failure the fields past the failing read keep their old values |
| Ldap.LdapCredentialsValidator.ValidateCredentials | h2/src/main/org/h2/security/auth/impl/LdapCredentialsValidator.java:45-62 | accepted exactly when the bind succeeds; never a plain rejection: a failing bind is an exception |
| Strings.ReplaceAllFillsTemplate | h2/src/main/org/h2/security/auth/impl/LdapCredentialsValidator.java:52 | for a two-character placeholder with distinct characters, replacing it in parts joined by it, none containing it, equals joining the parts with the replacement |
| Strings.ParseIntToString | h2/src/main/org/h2/security/auth/impl/LdapCredentialsValidator.java:41 | parsing a printed 32-bit integer gives it back |
| ValidatorConfig.CredentialsValidatorConfig.SetRealmName | h2/src/main/org/h2/security/auth/CredentialsValidatorConfig.java:28-34 | the getter returns what was set |
| ValidatorConfig.CredentialsValidatorConfig.SetClassName | h2/src/main/org/h2/security/auth/CredentialsValidatorConfig.java:36-42 | the getter returns what was set |
| ValidatorConfig.CredentialsValidatorConfig.GetProperties | h2/src/main/org/h2/security/auth/CredentialsValidatorConfig.java:44-49 | never null: an unset list becomes an empty one, which is kept; a set list is returned as it is |
| AuthConfig.H2AuthConfig.constructor | h2/src/main/org/h2/security/auth/H2AuthConfig.java:26-38 | user registration and role creation default to true; both lists are unset |
| AuthConfig.H2AuthConfig.SetAllowUserRegistration | h2/src/main/org/h2/security/auth/H2AuthConfig.java:29-35 | the getter returns what was set |
| AuthConfig.H2AuthConfig.SetCreateMissingRoles | h2/src/main/org/h2/security/auth/H2AuthConfig.java:40-46 | the getter returns what was set |
| AuthConfig.H2AuthConfig.GetValidators | h2/src/main/org/h2/security/auth/H2AuthConfig.java:51-56 | never null: an unset list becomes an empty one, which is kept |
| AuthConfig.H2AuthConfig.SetValidators | h2/src/main/org/h2/security/auth/H2AuthConfig.java:58-60 | the getter then returns the list that was set |
| AuthConfig.H2AuthConfig.GetUserToRolesMappers | h2/src/main/org/h2/security/auth/H2AuthConfig.java:65-70 | never null: an unset list becomes an empty one, which is kept |
| AuthConfig.H2AuthConfig.SetUserToRolesMappers | h2/src/main/org/h2/security/auth/H2AuthConfig.java:72-74 | the getter then returns the list that was set |

## Left out

- `DefaultAuthenticator.init`: configuration discovery (system property, classpath resource, URL) and JAXB unmarshalling are I/O. `configureFrom` is modelled on an already-read `H2AuthConfig`.
- Reflective class loading: `Class.forName(...).newInstance()` and the plug-ins' `configure` appear in `DefaultAuthenticator` as the `loads` function of `Plugins`. In `AuthenticationManager` and `AuthenticatorBuilder` they are the `instantiates` function. An authenticator is identified by its class name, so two instances of one class are not told apart.
- Plug-in behaviour inside `authenticate` is given by the functions of `Plugins`. These are not connected to the classes of the three modelled plug-ins.
- `AssignRealmNameRole` and the JAAS validators (`JaasCredentialsValidator`, `JavaxSecurityAuthCredentialsValidator`) are not part of this model: they wrap JAAS.
- The pluggable and internal authenticators as seen by `AuthenticationManager` are functions of its `Environment`, and so are the two system properties. The `database` argument is folded into those functions.
- `synchronized` blocks on the system session are left out: the model is sequential, and a commit is a counter.
- The LDAP bind and context close (network I/O) are the `bind` parameter of `ValidateCredentials`.
- SHA-256, `Utils.compareSecure`, hex decoding, `String.getBytes` and secure random bytes are the functions of `FixedPassword.Crypto`. `compareSecure` is byte equality. A null stored hash compares unequal. A null salt makes the hash raise an exception.
- `AuthenticationInfo`, `ConfigProperties`, `User`, `Role`, `Right` and `Database` are not part of this model; minimal stand-ins are used:
  - the fully qualified name follows the tests;
  - `clean` is an event;
  - typed property getters behave like `Boolean.parseBoolean` and `Integer.parseInt`;
  - the one-argument `getStringValue` fails on a missing key.
- Users are values filed by name in the catalog. Java object identity is modelled as "the record filed under the same name".
- A null role name from a mapper is represented as the empty string. Both are skipped alike.
- Upper- and lower-casing cover ASCII letters only.
- DefaultAuth.DefaultAuthenticator.ConfigureFromConfig: the empty property list that `CredentialsValidatorConfig.getProperties` creates and keeps for an entry without one is read as empty but not stored back.
- Exceptions carry a short cause string rather than the Java exception object. `DbException.convert` is the `Converted` wrapper.
- `persistUsers` has no setter in `DefaultAuthenticator`. It stays false there; the model keeps it as a field so both user kinds are covered.
- DefaultAuth.DefaultAuthenticator.Authenticate: the returned user is the record stored after the commit, not a shared mutable object.
