/**
 * `DefaultAuthenticator`: validators chosen by realm, users registered on
 * first login, roles mapped and granted temporarily on every login.
 */
module DefaultAuth {
  import opened Wrappers
  import opened AuthInfo
  import opened Catalog
  import opened Plugins
  import opened RoleReconciliation
  import opened UserBuilding
  import opened ValidatorConfig
  import opened AuthConfig

  const DefaultRealmName: string := "h2"
  const JaasValidatorClass: string := "org.h2.security.auth.impl.JaasCredentialsValidator"
  const AssignRealmNameRoleClass: string := "org.h2.security.auth.impl.AssignRealmNameRole"

  /** Why a configuration was refused. */
  datatype ConfigError = ClassNotLoaded(className: Option<string>) | DuplicateRealm(realm: Option<string>)

  // ------------------------------------------------------------ configuration

  predicate ValidatorLoads(e: ValidatorEntry, plugins: Plugins) {
    e.className.Some? && plugins.loads(PluginRef(e.className.value, e.properties))
  }

  function ValidatorRef(e: ValidatorEntry): PluginRef
    requires e.className.Some?
  {
    PluginRef(e.className.value, e.properties)
  }

  predicate DistinctRealms(entries: seq<ValidatorEntry>) {
    forall i, j :: 0 <= i < j < |entries| ==> entries[i].realmName != entries[j].realmName
  }

  /**
   * The realm registry built from the validator entries, in order: an entry
   * whose class cannot be loaded, or whose realm is already registered, stops
   * the build with an error.
   */
  function RealmRegistry(entries: seq<ValidatorEntry>, plugins: Plugins): Result<map<Option<string>, PluginRef>, ConfigError> {
    if |entries| == 0 then Success(map[])
    else
      var e := entries[|entries| - 1];
      match RealmRegistry(entries[..|entries| - 1], plugins)
      case Failure(err) => Failure(err)
      case Success(registry) =>
        if !ValidatorLoads(e, plugins) then Failure(ClassNotLoaded(e.className))
        else if e.realmName in registry then Failure(DuplicateRealm(e.realmName))
        else Success(registry[e.realmName := ValidatorRef(e)])
  }

  /** The registry is built exactly when every class loads and no realm is named twice. */
  lemma {:induction false} RealmRegistrySucceeds(entries: seq<ValidatorEntry>, plugins: Plugins)
    ensures RealmRegistry(entries, plugins).Success? <==>
      (forall i :: 0 <= i < |entries| ==> ValidatorLoads(entries[i], plugins)) && DistinctRealms(entries)
  {
    if |entries| > 0 {
      var n := |entries| - 1;
      var prefix := entries[..n];
      var e := entries[n];
      assert forall i :: 0 <= i < n ==> prefix[i] == entries[i];
      RealmRegistrySucceeds(prefix, plugins);
      var previous := RealmRegistry(prefix, plugins);
      if previous.Success? && ValidatorLoads(e, plugins) {
        RealmRegistryContents(prefix, plugins);
        if e.realmName in previous.value {
          var i :| 0 <= i < n && prefix[i].realmName == e.realmName;
          assert entries[i].realmName == entries[n].realmName;
        }
      } else if previous.Failure? && DistinctRealms(entries) {
        assert DistinctRealms(prefix);
      }
    }
  }

  /** A built registry maps each entry's realm to that entry's validator and holds no other realm. */
  lemma {:induction false} RealmRegistryContents(entries: seq<ValidatorEntry>, plugins: Plugins)
    requires RealmRegistry(entries, plugins).Success?
    ensures forall k :: k in RealmRegistry(entries, plugins).value ==>
      exists i :: 0 <= i < |entries| && entries[i].realmName == k
    ensures forall i :: 0 <= i < |entries| ==>
      && ValidatorLoads(entries[i], plugins)
      && entries[i].realmName in RealmRegistry(entries, plugins).value
      && RealmRegistry(entries, plugins).value[entries[i].realmName] == ValidatorRef(entries[i])
  {
    if |entries| > 0 {
      var n := |entries| - 1;
      var prefix := entries[..n];
      assert forall i :: 0 <= i < n ==> prefix[i] == entries[i];
      RealmRegistryContents(prefix, plugins);
      var registry := RealmRegistry(entries, plugins).value;
      forall k | k in registry
        ensures exists i :: 0 <= i < |entries| && entries[i].realmName == k
      {
        if k != entries[n].realmName {
          var i :| 0 <= i < n && prefix[i].realmName == k;
          assert entries[i].realmName == k;
        }
      }
    }
  }

  /** When every class loads, the only way the build fails is a repeated realm. */
  lemma {:induction false} LoadableRegistryFailsOnlyOnDuplicate(entries: seq<ValidatorEntry>, plugins: Plugins)
    requires forall i :: 0 <= i < |entries| ==> ValidatorLoads(entries[i], plugins)
    ensures RealmRegistry(entries, plugins).Failure? ==> RealmRegistry(entries, plugins).error.DuplicateRealm?
  {
    if |entries| > 0 {
      var prefix := entries[..|entries| - 1];
      assert forall i :: 0 <= i < |prefix| ==> prefix[i] == entries[i];
      LoadableRegistryFailsOnlyOnDuplicate(prefix, plugins);
    }
  }

  /** Two validators for one realm make the configuration fail with "Duplicate realm". */
  lemma DuplicateRealmRefused(entries: seq<ValidatorEntry>, plugins: Plugins, i: nat, j: nat)
    requires i < j < |entries| && entries[i].realmName == entries[j].realmName
    requires forall k :: 0 <= k < |entries| ==> ValidatorLoads(entries[k], plugins)
    ensures RealmRegistry(entries, plugins).Failure?
    ensures RealmRegistry(entries, plugins).error.DuplicateRealm?
  {
    RealmRegistrySucceeds(entries, plugins);
    LoadableRegistryFailsOnlyOnDuplicate(entries, plugins);
  }

  /** Once the registry build failed on a prefix, it fails the same way on the whole list. */
  lemma {:induction false} RealmRegistryFailureSticks(entries: seq<ValidatorEntry>, k: nat, plugins: Plugins)
    requires k <= |entries| && RealmRegistry(entries[..k], plugins).Failure?
    ensures RealmRegistry(entries, plugins) == RealmRegistry(entries[..k], plugins)
    decreases |entries| - k
  {
    if k < |entries| {
      assert entries[..k + 1][..k] == entries[..k];
      RealmRegistryFailureSticks(entries, k + 1, plugins);
    } else {
      assert entries[..k] == entries;
    }
  }

  predicate MapperLoads(e: MapperEntry, plugins: Plugins) {
    e.className.Some? && plugins.loads(PluginRef(e.className.value, e.properties))
  }

  /** The mapper list built from the mapper entries, in order; the first unloadable class stops it. */
  function MapperList(entries: seq<MapperEntry>, plugins: Plugins): (r: Result<seq<PluginRef>, ConfigError>)
    ensures r.Success? <==> forall i :: 0 <= i < |entries| ==> MapperLoads(entries[i], plugins)
    ensures r.Success? ==>
      && |r.value| == |entries|
      && (forall i :: 0 <= i < |entries| ==> r.value[i] == PluginRef(entries[i].className.value, entries[i].properties))
  {
    if |entries| == 0 then Success([])
    else
      var prefix := entries[..|entries| - 1];
      var e := entries[|entries| - 1];
      assert forall i :: 0 <= i < |prefix| ==> prefix[i] == entries[i];
      match MapperList(prefix, plugins)
      case Failure(err) => Failure(err)
      case Success(mappers) =>
        if !MapperLoads(e, plugins) then Failure(ClassNotLoaded(e.className))
        else Success(mappers + [PluginRef(e.className.value, e.properties)])
  }

  lemma {:induction false} MapperListFailureSticks(entries: seq<MapperEntry>, k: nat, plugins: Plugins)
    requires k <= |entries| && MapperList(entries[..k], plugins).Failure?
    ensures MapperList(entries, plugins) == MapperList(entries[..k], plugins)
    decreases |entries| - k
  {
    if k < |entries| {
      assert entries[..k + 1][..k] == entries[..k];
      MapperListFailureSticks(entries, k + 1, plugins);
    } else {
      assert entries[..k] == entries;
    }
  }

  lemma {:induction false} CandidateRolesFailureSticks(outcomes: seq<MapperOutcome>, k: nat)
    requires k <= |outcomes| && CandidateRoles(outcomes[..k]).Failure?
    ensures CandidateRoles(outcomes) == CandidateRoles(outcomes[..k])
    decreases |outcomes| - k
  {
    if k < |outcomes| {
      assert outcomes[..k + 1][..k] == outcomes[..k];
      CandidateRolesFailureSticks(outcomes, k + 1);
    } else {
      assert outcomes[..k] == outcomes;
    }
  }

  // ------------------------------------------------------------ authentication, as values

  /** The authenticator's settings. */
  datatype Setup = Setup(
    validators: map<Option<string>, PluginRef>,
    mappers: seq<PluginRef>,
    allowUserRegistration: bool,
    persistUsers: bool,
    createMissingRoles: bool)

  /** The catalog once the user exists (built if missing) and its temporary grants are revoked. */
  function Prepare(c: Catalog, info: AuthenticationInfo, persistUsers: bool): (r: Catalog)
    ensures FullyQualifiedName(info) in r.users
  {
    var name := FullyQualifiedName(info);
    var c1 :=
      if name in c.users then c
      else
        var built := BuildUser(info, c.nextObjectId, persistUsers);
        c.(users := c.users[name := built.0], nextObjectId := built.1);
    var u := c1.users[name];
    c1.(users := c1.users[name := u.(grants := RevokeTemporaryRights(u.grants))])
  }

  /**
   * One call of `authenticate` from catalog `before` to catalog `after` with
   * result `r`; `consulted` tells whether the realm's validator was invoked.
   * The checks come in the source's order: unknown user without registration,
   * unknown realm, the validator's verdict; then the user is registered if
   * missing, its temporary grants revoked, the roles reconciled and the
   * system session committed.
   */
  ghost predicate Authenticates(s: Setup, before: Catalog, info: AuthenticationInfo, plugins: Plugins,
                                r: AuthResult<User>, after: Catalog, consulted: bool)
  {
    var name := FullyQualifiedName(info);
    if name !in before.users && !s.allowUserRegistration then
      r == Failed(UserNotFound(name)) && after == before && !consulted
    else if info.realm !in s.validators then
      r == Failed(RealmNotConfigured(info.realm)) && after == before && !consulted
    else
      consulted &&
      match plugins.validate(s.validators[info.realm], info)
      case Rejected => r == NotAuthenticated && after == before
      case Threw(cause) => r == Failed(CredentialsCheckFailed(cause)) && after == before
      case Accepted =>
        var prepared := Prepare(before, info, s.persistUsers);
        match CandidateRoles(MapperOutcomes(plugins, s.mappers, info))
        case Failure(cause) => r == Failed(RoleMappingFailed(cause)) && after == prepared
        case Success(candidates) =>
          && after.commits == prepared.commits + 1
          && Reconciled(prepared, after.(commits := prepared.commits), name, candidates, s.createMissingRoles)
          && name in after.users
          && r == Authenticated(after.users[name])
  }

  // ------------------------------------------------------------ the authenticator object

  class DefaultAuthenticator {
    var validators: map<Option<string>, PluginRef>
    var userToRolesMappers: seq<PluginRef>
    var allowUserRegistration: bool
    var persistUsers: bool
    var createMissingRoles: bool
    /** Instrumentation: how many times a credentials validator has been invoked. */
    var validatorCalls: nat

    constructor ()
      ensures validators == map[] && userToRolesMappers == []
      ensures !allowUserRegistration && !persistUsers && !createMissingRoles
      ensures validatorCalls == 0
    {
      validators, userToRolesMappers := map[], [];
      allowUserRegistration, persistUsers, createMissingRoles := false, false, false;
      validatorCalls := 0;
    }

    function Configuration(): Setup
      reads this
    {
      Setup(validators, userToRolesMappers, allowUserRegistration, persistUsers, createMissingRoles)
    }

    function IsPersistUsers(): bool
      reads this
    {
      persistUsers
    }

    function IsAllowUserRegistration(): bool
      reads this
    {
      allowUserRegistration
    }

    method SetAllowUserRegistration(b: bool)
      modifies this`allowUserRegistration
      ensures IsAllowUserRegistration() == b
    {
      allowUserRegistration := b;
    }

    function IsCreateMissingRoles(): bool
      reads this
    {
      createMissingRoles
    }

    /**
     * The built-in configuration: one JAAS realm "h2", registration on,
     * missing roles skipped; the realm-name mapper is appended to the mappers
     * already configured.
     */
    method DefaultConfiguration()
      modifies this`validators, this`userToRolesMappers, this`allowUserRegistration, this`createMissingRoles
      ensures !IsCreateMissingRoles() && IsAllowUserRegistration()
      ensures validators == map[Some(DefaultRealmName) := PluginRef(JaasValidatorClass, [])]
      ensures userToRolesMappers == old(userToRolesMappers) + [PluginRef(AssignRealmNameRoleClass, [])]
    {
      createMissingRoles := false;
      allowUserRegistration := true;
      validators := map[Some(DefaultRealmName) := PluginRef(JaasValidatorClass, [])];
      userToRolesMappers := userToRolesMappers + [PluginRef(AssignRealmNameRoleClass, [])];
    }

    /**
     * `configureFrom`: the flags are taken first; the realm registry replaces
     * the old one only if it was built completely, and the mapper list
     * likewise, after it.
     */
    method ConfigureFrom(settings: AuthSettings, plugins: Plugins) returns (error: Option<ConfigError>)
      modifies this`validators, this`userToRolesMappers, this`allowUserRegistration, this`createMissingRoles
      ensures IsAllowUserRegistration() == settings.allowUserRegistration
      ensures IsCreateMissingRoles() == settings.createMissingRoles
      ensures match RealmRegistry(settings.validators, plugins)
        case Failure(e) => error == Some(e) && validators == old(validators) && userToRolesMappers == old(userToRolesMappers)
        case Success(registry) =>
          validators == registry &&
          match MapperList(settings.userToRolesMappers, plugins)
          case Failure(e) => error == Some(e) && userToRolesMappers == old(userToRolesMappers)
          case Success(mappers) => error == None && userToRolesMappers == mappers
    {
      allowUserRegistration := settings.allowUserRegistration;
      createMissingRoles := settings.createMissingRoles;
      var registry := BuildRealmRegistry(settings.validators, plugins);
      if registry.Failure? {
        return Some(registry.error);
      }
      validators := registry.value;
      var mappers := BuildMapperList(settings.userToRolesMappers, plugins);
      if mappers.Failure? {
        return Some(mappers.error);
      }
      userToRolesMappers := mappers.value;
      error := None;
    }

    /**
     * `configureFrom(config)` on the configuration object itself: its getters
     * create the lists it lacks, and the settings read through them
     * configure the authenticator as `ConfigureFrom` does.
     */
    method ConfigureFromConfig(config: H2AuthConfig, plugins: Plugins) returns (error: Option<ConfigError>)
      modifies this`validators, this`userToRolesMappers, this`allowUserRegistration, this`createMissingRoles
      modifies config`validators, config`userToRolesMappers
      ensures config.validators == Some(old(config.validators).GetOr([]))
      ensures config.userToRolesMappers == Some(old(config.userToRolesMappers).GetOr([]))
      ensures config.Settings() == old(config.Settings())
      ensures IsAllowUserRegistration() == config.IsAllowUserRegistration()
      ensures IsCreateMissingRoles() == config.IsCreateMissingRoles()
      ensures match RealmRegistry(config.Settings().validators, plugins)
        case Failure(e) => error == Some(e) && validators == old(validators) && userToRolesMappers == old(userToRolesMappers)
        case Success(registry) =>
          validators == registry &&
          match MapperList(config.Settings().userToRolesMappers, plugins)
          case Failure(e) => error == Some(e) && userToRolesMappers == old(userToRolesMappers)
          case Success(mappers) => error == None && userToRolesMappers == mappers
    {
      var before := config.Settings();
      var _ := config.GetValidators();
      var _ := config.GetUserToRolesMappers();
      assert config.Settings() == before;
      error := ConfigureFrom(config.Settings(), plugins);
    }

    /** The first loop of `configureFrom`: instantiate each validator and file it under its realm. */
    method BuildRealmRegistry(entries: seq<ValidatorEntry>, plugins: Plugins)
      returns (r: Result<map<Option<string>, PluginRef>, ConfigError>)
      ensures r == RealmRegistry(entries, plugins)
    {
      var registry: map<Option<string>, PluginRef> := map[];
      var i := 0;
      while i < |entries|
        invariant 0 <= i <= |entries|
        invariant RealmRegistry(entries[..i], plugins) == Success(registry)
      {
        var entry := entries[i];
        assert entries[..i + 1][..i] == entries[..i];
        if entry.className.None? || !plugins.loads(PluginRef(entry.className.value, entry.properties)) {
          RealmRegistryFailureSticks(entries, i + 1, plugins);
          return Failure(ClassNotLoaded(entry.className));
        }
        var taken := entry.realmName in registry;
        registry := registry[entry.realmName := PluginRef(entry.className.value, entry.properties)];
        if taken {
          RealmRegistryFailureSticks(entries, i + 1, plugins);
          return Failure(DuplicateRealm(entry.realmName));
        }
        i := i + 1;
      }
      assert entries[..i] == entries;
      r := Success(registry);
    }

    /** The second loop of `configureFrom`: instantiate each mapper, in order. */
    method BuildMapperList(entries: seq<MapperEntry>, plugins: Plugins) returns (r: Result<seq<PluginRef>, ConfigError>)
      ensures r == MapperList(entries, plugins)
    {
      var mappers: seq<PluginRef> := [];
      var j := 0;
      while j < |entries|
        invariant 0 <= j <= |entries|
        invariant MapperList(entries[..j], plugins) == Success(mappers)
      {
        var entry := entries[j];
        assert entries[..j + 1][..j] == entries[..j];
        if entry.className.None? || !plugins.loads(PluginRef(entry.className.value, entry.properties)) {
          MapperListFailureSticks(entries, j + 1, plugins);
          return Failure(ClassNotLoaded(entry.className));
        }
        mappers := mappers + [PluginRef(entry.className.value, entry.properties)];
        j := j + 1;
      }
      assert entries[..j] == entries;
      r := Success(mappers);
    }

    /** The first loop of `updateRoles`: the union of the mappers' role sets. */
    method CollectRoles(info: AuthenticationInfo, plugins: Plugins) returns (r: Result<set<string>, string>)
      ensures r == CandidateRoles(MapperOutcomes(plugins, userToRolesMappers, info))
    {
      ghost var outcomes := MapperOutcomes(plugins, userToRolesMappers, info);
      var roles: set<string> := {};
      var i := 0;
      while i < |userToRolesMappers|
        invariant 0 <= i <= |userToRolesMappers|
        invariant CandidateRoles(outcomes[..i]) == Success(roles)
      {
        var outcome := plugins.mapRoles(userToRolesMappers[i], info);
        assert outcomes[..i + 1][..i] == outcomes[..i];
        assert outcomes[i] == outcome;
        if outcome.MapperThrew? {
          CandidateRolesFailureSticks(outcomes, i + 1);
          return Failure(outcome.cause);
        }
        if outcome.Roles? && outcome.names != {} {
          roles := roles + outcome.names;
        } else if outcome.Roles? {
          assert roles + outcome.names == roles;
        }
        i := i + 1;
      }
      assert outcomes[..i] == outcomes;
      r := Success(roles);
    }

    /**
     * `updateRoles`: collect the candidate roles, then resolve each one,
     * creating it when missing roles may be created, and grant it
     * temporarily unless the user already holds it.
     */
    method UpdateRoles(info: AuthenticationInfo, user: string, db: Database, plugins: Plugins) returns (failure: Option<string>)
      requires user in db.users
      modifies db
      ensures match CandidateRoles(MapperOutcomes(plugins, userToRolesMappers, info))
        case Failure(cause) => failure == Some(cause) && db.State() == old(db.State())
        case Success(candidates) =>
          failure == None && Reconciled(old(db.State()), db.State(), user, candidates, createMissingRoles)
    {
      var collected := CollectRoles(info, plugins);
      if collected.Failure? {
        return Some(collected.error);
      }
      GrantRoles(user, collected.value, db);
      failure := None;
    }

    /** The second loop of `updateRoles`: every candidate role resolved and granted. */
    method GrantRoles(user: string, candidates: set<string>, db: Database)
      requires user in db.users
      modifies db
      ensures Reconciled(old(db.State()), db.State(), user, candidates, createMissingRoles)
    {
      ghost var before := db.State();
      ReconciledStart(before, user, createMissingRoles);
      var remaining := candidates;
      ghost var done: set<string> := {};
      while remaining != {}
        invariant done + remaining == candidates && done !! remaining
        invariant user in db.users
        invariant Reconciled(before, db.State(), user, done, createMissingRoles)
        decreases |remaining|
      {
        var name :| name in remaining;
        ghost var mid := db.State();
        ReconcileRole(user, name, db);
        ReconcileStep(before, mid, user, done, name, createMissingRoles);
        remaining := remaining - {name};
        done := done + {name};
      }
      assert done == candidates;
    }

    /**
     * One pass of the loop over the candidate roles: skip the null name,
     * create the role if it is missing and may be created, and grant it
     * temporarily unless the user already holds it.
     */
    method ReconcileRole(user: string, name: string, db: Database)
      requires user in db.users
      modifies db
      ensures db.State() == ReconcileOne(old(db.State()), user, name, createMissingRoles)
    {
      if name != "" {
        var role := db.FindRole(name);
        if role.None? && createMissingRoles {
          var id := db.AllocateObjectId();
          role := Some(Role(id, name, false));
          db.AddRole(role.value);
        }
        if role.Some? {
          var u := db.users[user];
          if name !in u.grants {
            db.UpdateUser(user, u.(grants := u.grants[name := Right(true)]));
          }
        }
      }
    }

    /** `authenticate`, step by step as in the source. */
    method Authenticate(info: AuthenticationInfo, db: Database, plugins: Plugins) returns (r: AuthResult<User>)
      modifies db, this`validatorCalls
      ensures validatorCalls == old(validatorCalls) || validatorCalls == old(validatorCalls) + 1
      ensures Authenticates(Configuration(), old(db.State()), info, plugins, r, db.State(), validatorCalls != old(validatorCalls))
    {
      var userName := FullyQualifiedName(info);
      var user := db.FindUser(userName);
      if user.None? && !IsAllowUserRegistration() {
        return Failed(UserNotFound(userName));
      }
      if info.realm !in validators {
        return Failed(RealmNotConfigured(info.realm));
      }
      var validator := validators[info.realm];
      validatorCalls := validatorCalls + 1;
      var validation := plugins.validate(validator, info);
      if validation.Rejected? {
        return NotAuthenticated;
      }
      if validation.Threw? {
        return Failed(CredentialsCheckFailed(validation.cause));
      }
      if user.None? {
        // the id is allocated first, as the builder does, and only for a persistent user
        var id := -1;
        if IsPersistUsers() {
          id := db.AllocateObjectId();
        }
        var built := BuildUser(info, id, IsPersistUsers());
        db.AddUser(built.0);
      }
      var current := db.users[userName];
      db.UpdateUser(userName, current.(grants := RevokeTemporaryRights(current.grants)));
      assert db.State() == Prepare(old(db.State()), info, persistUsers);
      var failure := UpdateRoles(info, userName, db, plugins);
      if failure.Some? {
        return Failed(RoleMappingFailed(failure.value));
      }
      db.Commit();
      r := Authenticated(db.users[userName]);
    }
  }

  // ------------------------------------------------------------ properties of `authenticate`

  /** The grants `name` holds persistently in `c` (none for an unknown user). */
  function HeldPersistently(c: Catalog, name: string): map<string, Right> {
    if name in c.users then RevokeTemporaryRights(c.users[name].grants) else map[]
  }

  /**
   * Preparing the user: it exists afterwards with its persistent grants only;
   * a missing user is the one `buildUser` makes; no other user, no role and
   * no commit changes.
   */
  lemma PrepareSpec(c: Catalog, info: AuthenticationInfo, persistUsers: bool)
    requires WellFormed(c)
    ensures var p := Prepare(c, info, persistUsers);
      var name := FullyQualifiedName(info);
      && WellFormed(p)
      && p.roles == c.roles && p.commits == c.commits
      && p.users[name].grants == HeldPersistently(c, name)
      && (forall n :: n in p.users <==> n in c.users || n == name)
      && (forall n :: n in c.users && n != name ==> p.users[n] == c.users[n])
      && (name in c.users ==>
            p.users[name] == c.users[name].(grants := HeldPersistently(c, name)) && p.nextObjectId == c.nextObjectId)
      && (name !in c.users ==>
            p.users[name] == BuildUser(info, c.nextObjectId, persistUsers).0
            && p.nextObjectId == BuildUser(info, c.nextObjectId, persistUsers).1)
  {
    var name := FullyQualifiedName(info);
    if name !in c.users {
      BuiltUserFits(c, info, persistUsers);
      var u := BuildUser(info, c.nextObjectId, persistUsers).0;
      assert RevokeTemporaryRights(u.grants) == u.grants;
    }
  }

  /** An unknown user is refused without consulting any validator when registration is off. */
  lemma UnknownUserRefusedFirst(s: Setup, before: Catalog, info: AuthenticationInfo, plugins: Plugins,
                                r: AuthResult<User>, after: Catalog, consulted: bool)
    requires Authenticates(s, before, info, plugins, r, after, consulted)
    requires FullyQualifiedName(info) !in before.users && !s.allowUserRegistration
    ensures r == Failed(UserNotFound(FullyQualifiedName(info))) && !consulted && after == before
  {
  }

  /**
   * Every outcome but success and a role-mapping failure leaves the catalog
   * as it was: no user created, no grant revoked or added, no commit.
   */
  lemma RefusalHasNoSideEffects(s: Setup, before: Catalog, info: AuthenticationInfo, plugins: Plugins,
                                r: AuthResult<User>, after: Catalog, consulted: bool)
    requires Authenticates(s, before, info, plugins, r, after, consulted)
    requires !r.Authenticated? && !(r.Failed? && r.error.RoleMappingFailed?)
    ensures after == before
  {
  }

  /**
   * A successful login: the validator accepted; the user (created if it was
   * missing, otherwise the same record) is returned as stored; its temporary
   * grants are exactly the resolved roles of this call that it does not hold
   * persistently, and its persistent grants are untouched; no other user
   * changes and the system session is committed once.
   */
  lemma SuccessfulAuthentication(s: Setup, before: Catalog, info: AuthenticationInfo, plugins: Plugins,
                                 r: AuthResult<User>, after: Catalog, consulted: bool)
    requires WellFormed(before)
    requires Authenticates(s, before, info, plugins, r, after, consulted)
    requires r.Authenticated?
    ensures consulted && info.realm in s.validators && plugins.validate(s.validators[info.realm], info) == Accepted
    ensures CandidateRoles(MapperOutcomes(plugins, s.mappers, info)).Success?
    ensures var name := FullyQualifiedName(info);
      var candidates := CandidateRoles(MapperOutcomes(plugins, s.mappers, info)).value;
      && name in after.users && r.user == after.users[name] && r.user.name == name
      && after.commits == before.commits + 1
      && WellFormed(after)
      && (forall n :: n in after.users <==> n in before.users || n == name)
      && (forall n :: n in before.users && n != name ==> after.users[n] == before.users[n])
      && r.user.(grants := map[]) ==
           (if name in before.users then before.users[name].(grants := map[])
            else BuildUser(info, before.nextObjectId, s.persistUsers).0)
      && TemporaryRoles(r.user.grants)
           == Resolved(candidates, before.roles.Keys, s.createMissingRoles) - HeldPersistently(before, name).Keys
      && RevokeTemporaryRights(r.user.grants) == HeldPersistently(before, name)
  {
    var name := FullyQualifiedName(info);
    var candidates := CandidateRoles(MapperOutcomes(plugins, s.mappers, info)).value;
    var prepared := Prepare(before, info, s.persistUsers);
    PrepareSpec(before, info, s.persistUsers);
    var reconciled := after.(commits := prepared.commits);
    ReconciledGrants(prepared, reconciled, name, candidates, s.createMissingRoles);
    ReconciledWellFormed(prepared, reconciled, name, candidates, s.createMissingRoles);
  }

  /**
   * Logging in again with the same credentials changes nothing but the
   * commit count: the second call succeeds, returns the same user, creates
   * no role and accumulates no temporary grant.
   */
  lemma RepeatedAuthenticationIsStable(s: Setup, c0: Catalog, info: AuthenticationInfo, plugins: Plugins,
                                       r1: AuthResult<User>, c1: Catalog, k1: bool,
                                       r2: AuthResult<User>, c2: Catalog, k2: bool)
    requires WellFormed(c0)
    requires Authenticates(s, c0, info, plugins, r1, c1, k1) && r1.Authenticated?
    requires Authenticates(s, c1, info, plugins, r2, c2, k2)
    ensures r2 == r1
    ensures c2 == c1.(commits := c1.commits + 1)
  {
    var name := FullyQualifiedName(info);
    var cm := s.createMissingRoles;
    SuccessfulAuthentication(s, c0, info, plugins, r1, c1, k1);
    var candidates := CandidateRoles(MapperOutcomes(plugins, s.mappers, info)).value;
    var p0 := Prepare(c0, info, s.persistUsers);
    PrepareSpec(c0, info, s.persistUsers);
    SuccessBranch(s, c0, info, plugins, r1, c1, k1);
    SuccessBranch(s, c1, info, plugins, r2, c2, k2);
    var p1 := Prepare(c1, info, s.persistUsers);
    ReconcileTwice(p0, c1.(commits := p0.commits), p1, c2.(commits := p1.commits), name, candidates, cm);
  }

  /** The success branch of `Authenticates`, taken whenever validation and role mapping succeed. */
  lemma SuccessBranch(s: Setup, before: Catalog, info: AuthenticationInfo, plugins: Plugins,
                      r: AuthResult<User>, after: Catalog, consulted: bool)
    requires Authenticates(s, before, info, plugins, r, after, consulted)
    requires FullyQualifiedName(info) in before.users || s.allowUserRegistration
    requires info.realm in s.validators && plugins.validate(s.validators[info.realm], info) == Accepted
    requires CandidateRoles(MapperOutcomes(plugins, s.mappers, info)).Success?
    ensures var prepared := Prepare(before, info, s.persistUsers);
      var name := FullyQualifiedName(info);
      && after.commits == prepared.commits + 1
      && Reconciled(prepared, after.(commits := prepared.commits), name,
                    CandidateRoles(MapperOutcomes(plugins, s.mappers, info)).value, s.createMissingRoles)
      && name in after.users
      && r == Authenticated(after.users[name])
  {
  }

  /**
   * Reconciling the same candidates a second time, after revoking the
   * temporary grants of the first, gives back the same users, roles and
   * allocator.
   */
  lemma ReconcileTwice(p0: Catalog, c1: Catalog, p1: Catalog, c2: Catalog, name: string,
                       candidates: set<string>, createMissing: bool)
    requires name in p0.users && TemporaryRoles(p0.users[name].grants) == {}
    requires Reconciled(p0, c1, name, candidates, createMissing)
    requires name in c1.users
    requires p1.roles == c1.roles && p1.nextObjectId == c1.nextObjectId
    requires p1.users == c1.users[name := c1.users[name].(grants := RevokeTemporaryRights(c1.users[name].grants))]
    requires Reconciled(p1, c2, name, candidates, createMissing)
    ensures c2.users == c1.users && c2.roles == c1.roles && c2.nextObjectId == c1.nextObjectId
  {
    ResolvedStable(p0.roles, c1.roles, candidates, createMissing);
    ReconciledGrants(p0, c1, name, candidates, createMissing);
    RegrantSame(p0, c1, p1, name, Resolved(candidates, p0.roles.Keys, createMissing));
    RolesUnchanged(p1.roles, c2.roles, Created(candidates, p1.roles.Keys, createMissing), p1.nextObjectId, c2.nextObjectId);
  }

  /** Granting the same roles again over the same persistent grants restores the user map. */
  lemma RegrantSame(p0: Catalog, c1: Catalog, p1: Catalog, name: string, resolved: set<string>)
    requires name in p0.users && name in c1.users
    requires c1.users[name] == p0.users[name].(grants := GrantTemporary(p0.users[name].grants, resolved))
    requires RevokeTemporaryRights(c1.users[name].grants) == p0.users[name].grants
    requires p1.users == c1.users[name := c1.users[name].(grants := RevokeTemporaryRights(c1.users[name].grants))]
    ensures p1.users[name := p1.users[name].(grants := GrantTemporary(p1.users[name].grants, resolved))] == c1.users
  {
    assert p1.users[name].(grants := GrantTemporary(p1.users[name].grants, resolved)) == c1.users[name];
  }

  /**
   * Once the candidates are reconciled, the roles they resolve to do not
   * change and none remains to be created.
   */
  lemma ResolvedStable(before: map<string, Role>, roles: map<string, Role>, candidates: set<string>, createMissing: bool)
    requires forall n :: n in roles <==> n in before || n in Created(candidates, before.Keys, createMissing)
    ensures Resolved(candidates, roles.Keys, createMissing) == Resolved(candidates, before.Keys, createMissing)
    ensures Created(candidates, roles.Keys, createMissing) == {}
  {
  }

  /** Extending by no role at all leaves roles and allocator as they were. */
  lemma RolesUnchanged(before: map<string, Role>, roles: map<string, Role>, created: set<string>, from: int, to: int)
    requires created == {}
    requires RolesExtended(before, roles, created, from, to)
    ensures roles == before && to == from
  {
    assert roles.Keys == before.Keys;
  }
}
