/**
 * `AuthenticationManager`: the process-wide switch between the internal
 * authenticator and a pluggable one, chosen by a selector string and
 * initialised lazily.
 */
module Manager {
  import opened Wrappers
  import opened AuthInfo
  import opened Catalog

  const DefaultAuthenticatorClass: string := "org.h2.security.auth.DefaultAuthenticator"

  /** Selector words that switch external authentication off. */
  const ManagerDisabled: set<string> := {"", "no", "off", "disable", "false"}
  /** Selector words that choose the default authenticator. */
  const ManagerDefault: set<string> := {"yes", "on", "true", "default"}

  /**
   * `getAuthenticatorClassNameFrom`: a case-sensitive switch from selector to
   * class name; null and the disabling words give none, the enabling words
   * give the default authenticator, anything else is taken as a class name.
   */
  function ManagerClassName(selector: Option<string>): (r: Option<string>)
    ensures r.None? <==> selector.None? || selector.value in ManagerDisabled
    ensures r == Some(DefaultAuthenticatorClass) <==>
      selector.Some? && (selector.value in ManagerDefault || selector.value == DefaultAuthenticatorClass)
    ensures r.Some? && r != Some(DefaultAuthenticatorClass) ==> r == selector
  {
    match selector
    case None => None
    case Some(s) =>
      if s == "" || s == "no" || s == "off" || s == "disable" || s == "false" then None
      else if s == "yes" || s == "on" || s == "true" || s == "default" then Some(DefaultAuthenticatorClass)
      else Some(s)
  }

  /** A class name the switch produced is mapped to itself when used as a selector. */
  lemma ManagerClassNameIdempotent(selector: Option<string>)
    ensures ManagerClassName(ManagerClassName(selector)) == ManagerClassName(selector)
  {
  }

  /**
   * What the manager cannot see, as parameters: the two system properties,
   * reflective instantiation, the authenticators' `init`, the internal
   * authenticator and the installed authenticator's `authenticate`.
   * Authenticators are identified by their class name.
   */
  datatype Environment = Environment(
    allowInternalUsers: bool,
    authenticatorProperty: Option<string>,
    instantiates: string -> bool,
    initFailure: string -> Option<string>,
    internalAuthenticate: AuthenticationInfo -> AuthResult<User>,
    delegate: (string, AuthenticationInfo) -> AuthResult<User>)

  /** Observable steps, in the order they happen. */
  datatype Event =
    | Instantiate(className: string)        // reflective `newInstance`
    | InitAuthenticator(className: string)  // `authenticator.init()`
    | Internal                              // the internal authenticator ran
    | Delegate(className: string)           // the installed authenticator ran
    | Clean                                 // `authenticationInfo.clean()`

  datatype ManagerState = ManagerState(authenticator: Option<string>, initialized: bool)

  /** An installed authenticator is there whenever the manager counts as initialised. */
  predicate Valid(m: ManagerState) {
    m.initialized ==> m.authenticator.Some?
  }

  /** A step's result: the new state, the exception raised if any, and the events. */
  datatype Step = Step(state: ManagerState, fault: Option<Fault>, trace: seq<Event>)

  /** `setAuthenticator`: init first; only a successful init installs the authenticator. */
  function SetAuthenticatorStep(m: ManagerState, a: Option<string>, env: Environment): Step {
    match a
    case None => Step(m, Some(NullAuthenticator), [])
    case Some(c) =>
      match env.initFailure(c)
      case Some(cause) => Step(m, Some(InitFailed(c, cause)), [InitAuthenticator(c)])
      case None => Step(ManagerState(Some(c), true), None, [InitAuthenticator(c)])
  }

  /** `setAuthenticatorFromValue`: map the selector, instantiate the class, install it. */
  function FromValueStep(m: ManagerState, selector: Option<string>, env: Environment): Step {
    match ManagerClassName(selector)
    case None => SetAuthenticatorStep(m, None, env)
    case Some(c) =>
      if !env.instantiates(c) then Step(m, Some(ClassNotInstantiable(c)), [Instantiate(c)])
      else
        var step := SetAuthenticatorStep(m, Some(c), env);
        step.(trace := [Instantiate(c)] + step.trace)
  }

  /** `init`: nothing once initialised, otherwise install from the system property. */
  function InitStep(m: ManagerState, env: Environment): Step {
    if m.initialized then Step(m, None, [])
    else
      var step := FromValueStep(m, env.authenticatorProperty, env);
      if step.fault.Some? then step
      else step.(state := step.state.(initialized := true))
  }

  /** `authenticate`: internal users bypass everything; `clean` runs on every exit. */
  function AuthenticateStep(m: ManagerState, info: AuthenticationInfo, env: Environment): (ManagerState, AuthResult<User>, seq<Event>) {
    if env.allowInternalUsers && info.realm.None? then
      (m, env.internalAuthenticate(info), [Internal, Clean])
    else
      var init := InitStep(m, env);
      if init.fault.Some? then (init.state, Failed(Converted(init.fault.value)), init.trace + [Clean])
      else if init.state.authenticator.None? then (init.state, Failed(NoAuthenticatorAvailable), init.trace + [Clean])
      else
        var c := init.state.authenticator.value;
        (init.state, env.delegate(c, info), init.trace + [Delegate(c), Clean])
  }

  // ------------------------------------------------------------ properties

  /** A failed installation leaves the manager as it was. */
  lemma FailedInstallKeepsState(m: ManagerState, selector: Option<string>, env: Environment)
    ensures SetAuthenticatorStep(m, selector, env).fault.Some? ==> SetAuthenticatorStep(m, selector, env).state == m
    ensures FromValueStep(m, selector, env).fault.Some? ==> FromValueStep(m, selector, env).state == m
    ensures InitStep(m, env).fault.Some? ==> InitStep(m, env).state == m
  {
  }

  /** A disabling selector installs nothing: it ends in the null-authenticator exception. */
  lemma DisabledSelectorFails(m: ManagerState, selector: Option<string>, env: Environment)
    requires selector.None? || selector.value in ManagerDisabled
    ensures FromValueStep(m, selector, env) == Step(m, Some(NullAuthenticator), [])
  {
  }

  /** Events produced while installing an authenticator: never a cleanup, delegation or internal run. */
  predicate InstallEvents(t: seq<Event>) {
    forall i :: 0 <= i < |t| ==> t[i].Instantiate? || t[i].InitAuthenticator?
  }

  lemma InitEventsAreInstallEvents(m: ManagerState, env: Environment)
    ensures InstallEvents(InitStep(m, env).trace)
    ensures |InitStep(m, env).trace| <= 2
  {
  }

  /** `clean` runs exactly once, as the last event, on every path out of `authenticate`. */
  lemma {:induction false} CleanRunsOnceLast(m: ManagerState, info: AuthenticationInfo, env: Environment)
    ensures var t := AuthenticateStep(m, info, env).2;
      && |t| > 0 && t[|t| - 1] == Clean
      && forall i :: 0 <= i < |t| - 1 ==> t[i] != Clean
  {
    InitEventsAreInstallEvents(m, env);
  }

  /** An internal user (no realm, internal users allowed) is served without init or the pluggable authenticator. */
  lemma InternalPathSkipsInit(m: ManagerState, info: AuthenticationInfo, env: Environment)
    requires env.allowInternalUsers && info.realm.None?
    ensures AuthenticateStep(m, info, env) == (m, env.internalAuthenticate(info), [Internal, Clean])
  {
  }

  /** Initialisation happens at most once: after a successful `init` every further one does nothing. */
  lemma InitAtMostOnce(m: ManagerState, env: Environment)
    requires InitStep(m, env).fault.None?
    ensures InitStep(m, env).state.initialized
    ensures InitStep(InitStep(m, env).state, env) == Step(InitStep(m, env).state, None, [])
  {
  }

  /** Every step keeps the manager valid. */
  lemma StepsKeepValid(m: ManagerState, a: Option<string>, info: AuthenticationInfo, env: Environment)
    requires Valid(m)
    ensures Valid(SetAuthenticatorStep(m, a, env).state)
    ensures Valid(FromValueStep(m, a, env).state)
    ensures Valid(InitStep(m, env).state)
    ensures Valid(AuthenticateStep(m, info, env).0)
  {
  }

  /**
   * In a valid manager the "no Authenticator available" branch is never
   * taken: every call either runs the internal or the installed
   * authenticator just before `clean`, or fails because installing one
   * raised an exception.
   */
  lemma NoAuthenticatorUnreachable(m: ManagerState, info: AuthenticationInfo, env: Environment)
    requires Valid(m)
    ensures var (_, r, t) := AuthenticateStep(m, info, env);
      || (r.Failed? && r.error.Converted?)
      || (|t| >= 2 && (t[|t| - 2].Internal? || t[|t| - 2].Delegate?))
  {
  }

  // ------------------------------------------------------------ the manager object

  class AuthenticationManager {
    var authenticator: Option<string>
    var initialized: bool

    constructor ()
      ensures authenticator == None && !initialized
      ensures Valid(State())
    {
      authenticator, initialized := None, false;
    }

    function State(): ManagerState
      reads this
    {
      ManagerState(authenticator, initialized)
    }

    method SetAuthenticator(a: Option<string>, env: Environment) returns (fault: Option<Fault>, trace: seq<Event>)
      modifies this
      ensures Step(State(), fault, trace) == SetAuthenticatorStep(old(State()), a, env)
    {
      if a.None? {
        return Some(NullAuthenticator), [];
      }
      var c := a.value;
      trace := [InitAuthenticator(c)];
      var failure := env.initFailure(c);
      if failure.Some? {
        return Some(InitFailed(c, failure.value)), trace;
      }
      authenticator := a;
      initialized := true;
      fault := None;
    }

    method SetAuthenticatorFromValue(selector: Option<string>, env: Environment) returns (fault: Option<Fault>, trace: seq<Event>)
      modifies this
      ensures Step(State(), fault, trace) == FromValueStep(old(State()), selector, env)
    {
      var className := ManagerClassName(selector);
      if className.None? {
        fault, trace := SetAuthenticator(None, env);
        return;
      }
      var c := className.value;
      if !env.instantiates(c) {
        return Some(ClassNotInstantiable(c)), [Instantiate(c)];
      }
      var rest;
      fault, rest := SetAuthenticator(Some(c), env);
      trace := [Instantiate(c)] + rest;
    }

    method Init(env: Environment) returns (fault: Option<Fault>, trace: seq<Event>)
      modifies this
      ensures Step(State(), fault, trace) == InitStep(old(State()), env)
    {
      if initialized {
        return None, [];
      }
      fault, trace := SetAuthenticatorFromValue(env.authenticatorProperty, env);
      if fault.Some? {
        return;
      }
      initialized := true;
    }

    method Authenticate(info: AuthenticationInfo, env: Environment) returns (r: AuthResult<User>, trace: seq<Event>)
      modifies this
      ensures (State(), r, trace) == AuthenticateStep(old(State()), info, env)
    {
      if env.allowInternalUsers && info.realm.None? {
        r := env.internalAuthenticate(info);
        trace := [Internal, Clean];
        return;
      }
      var fault;
      fault, trace := Init(env);
      if fault.Some? {
        r := Failed(Converted(fault.value));
        trace := trace + [Clean];
      } else if authenticator.None? {
        r := Failed(NoAuthenticatorAvailable);
        trace := trace + [Clean];
      } else {
        r := env.delegate(authenticator.value, info);
        trace := trace + [Delegate(authenticator.value), Clean];
      }
    }
  }
}
