/** `AuthenticatorBuilder`: the selector vocabulary used when a database names its authenticator. */
module Builder {
  import opened Wrappers
  import opened AuthInfo
  import opened Manager

  /** Selector words that switch external authentication off. */
  const BuilderDisabled: set<string> := {"", "0", "no", "off", "disable", "false"}
  /** Selector words that choose the default authenticator. */
  const BuilderDefault: set<string> := {"1", "yes", "on", "enable", "true", "default"}

  /** `getAuthenticatorClassNameFrom`: the manager's switch with "0", "1" and "enable" added. */
  function BuilderClassName(selector: Option<string>): (r: Option<string>)
    ensures r.None? <==> selector.None? || selector.value in BuilderDisabled
    ensures r == Some(DefaultAuthenticatorClass) <==>
      selector.Some? && (selector.value in BuilderDefault || selector.value == DefaultAuthenticatorClass)
    ensures r.Some? && r != Some(DefaultAuthenticatorClass) ==> r == selector
  {
    match selector
    case None => None
    case Some(s) =>
      if s == "" || s == "0" || s == "no" || s == "off" || s == "disable" || s == "false" then None
      else if s == "1" || s == "yes" || s == "on" || s == "enable" || s == "true" || s == "default"
      then Some(DefaultAuthenticatorClass)
      else Some(s)
  }

  /**
   * `buildAuthenticator`: no authenticator, and no class loading, when the
   * selector maps to no class; otherwise an instance of the class, or the
   * exception instantiating it raised.
   */
  function BuildAuthenticator(selector: Option<string>, instantiates: string -> bool): (r: Result<Option<string>, Fault>)
    ensures r == Success(None) <==> BuilderClassName(selector).None?
    ensures r.Success? && r.value.Some? ==>
      BuilderClassName(selector) == r.value && instantiates(r.value.value)
    ensures r.Failure? ==>
      BuilderClassName(selector).Some? && r.error == ClassNotInstantiable(BuilderClassName(selector).value)
      && !instantiates(BuilderClassName(selector).value)
  {
    match BuilderClassName(selector)
    case None => Success(None)
    case Some(c) => if instantiates(c) then Success(Some(c)) else Failure(ClassNotInstantiable(c))
  }

  /** When the selector maps to no class, the result does not depend on the class loader. */
  lemma BuildWithoutClassMeansNoLoading(selector: Option<string>, instantiates: string -> bool, other: string -> bool)
    requires BuilderClassName(selector).None?
    ensures BuildAuthenticator(selector, instantiates) == BuildAuthenticator(selector, other) == Success(None)
  {
  }

  /**
   * The two vocabularies agree on every selector except "0", "1" and
   * "enable", which only the builder knows as keywords; the manager takes
   * them as class names.
   */
  lemma VocabulariesAgree(selector: Option<string>)
    ensures selector.None? || selector.value !in {"0", "1", "enable"} ==>
      BuilderClassName(selector) == ManagerClassName(selector)
    ensures selector == Some("0") ==> BuilderClassName(selector).None? && ManagerClassName(selector) == selector
    ensures selector == Some("1") || selector == Some("enable") ==>
      BuilderClassName(selector) == Some(DefaultAuthenticatorClass) && ManagerClassName(selector) == selector
  {
  }

  /** Every selector the manager disables or maps to the default, the builder maps the same way. */
  lemma BuilderExtendsManagerKeywords(selector: Option<string>)
    requires ManagerClassName(selector).None? || ManagerClassName(selector) == Some(DefaultAuthenticatorClass)
    ensures BuilderClassName(selector) == ManagerClassName(selector)
  {
    VocabulariesAgree(selector);
  }
}
