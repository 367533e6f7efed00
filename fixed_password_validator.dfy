/**
 * `FixedPasswordCredentialsValidator`: accepts one configured password,
 * given either in clear or as a salted hash.
 */
module FixedPassword {
  import opened Wrappers
  import opened AuthInfo
  import opened Catalog
  import opened ConfigProps
  import opened Plugins

  type Bytes = seq<JavaByte>

  /**
   * The cryptographic helpers, as parameters: `String.getBytes`,
   * `SHA256.getHashWithSalt`, hex decoding (None for malformed input) and the
   * 256 random salt bytes a new validator draws. `Utils.compareSecure` is
   * byte-array equality.
   */
  datatype Crypto = Crypto(
    getBytes: string -> Bytes,
    hashWithSalt: (Bytes, Bytes) -> Bytes,
    hexToBytes: string -> Option<Bytes>,
    randomSalt: Bytes)

  const NullPointer: string := "java.lang.NullPointerException"
  const BadHex: string := "malformed hexadecimal string"

  /**
   * `validateCredentials`: in clear, the supplied password must equal the
   * configured one; otherwise the supplied password, hashed with the salt,
   * must equal the stored hash. A missing supplied password or salt raises
   * an exception on the hash path; a missing stored hash matches nothing.
   */
  function CheckCredentials(password: Option<string>, salt: Option<Bytes>, hash: Option<Bytes>,
                            info: AuthenticationInfo, crypto: Crypto): (r: Validation)
    ensures password.Some? ==> (r == Accepted <==> info.password == password) && !r.Threw?
    ensures password.None? ==>
      (r == Accepted <==>
        && info.password.Some? && salt.Some?
        && hash == Some(crypto.hashWithSalt(crypto.getBytes(info.password.value), salt.value)))
    ensures r.Threw? <==> password.None? && (info.password.None? || salt.None?)
    ensures r.Threw? ==> r.cause == NullPointer
  {
    if password.Some? then
      if info.password == password then Accepted else Rejected
    else if info.password.None? || salt.None? then Threw(NullPointer)
    else if hash == Some(crypto.hashWithSalt(crypto.getBytes(info.password.value), salt.value)) then Accepted
    else Rejected
  }

  /** With a password in clear, salt and hash play no part. */
  lemma ClearPasswordIgnoresHash(password: string, salt1: Option<Bytes>, hash1: Option<Bytes>,
                                 salt2: Option<Bytes>, hash2: Option<Bytes>, info: AuthenticationInfo, crypto: Crypto)
    ensures CheckCredentials(Some(password), salt1, hash1, info, crypto)
         == CheckCredentials(Some(password), salt2, hash2, info, crypto)
  {
  }

  /** A validator built from a password accepts that password. */
  lemma BuiltValidatorAcceptsItsPassword(password: string, info: AuthenticationInfo, crypto: Crypto)
    requires info.password == Some(password)
    ensures CheckCredentials(None, Some(crypto.randomSalt),
                             Some(crypto.hashWithSalt(crypto.getBytes(password), crypto.randomSalt)), info, crypto)
         == Accepted
  {
  }

  /**
   * A `hash` property is decoded from hex and hashed with the salt like a
   * supplied password is: a supplied password whose bytes are the decoded
   * property is accepted.
   */
  lemma ConfiguredHashAcceptsDecodedBytes(hashHex: string, salt: Bytes, info: AuthenticationInfo, crypto: Crypto)
    requires crypto.hexToBytes(hashHex).Some?
    requires info.password.Some? && crypto.getBytes(info.password.value) == crypto.hexToBytes(hashHex).value
    ensures CheckCredentials(None, Some(salt), Some(crypto.hashWithSalt(crypto.hexToBytes(hashHex).value, salt)), info, crypto)
         == Accepted
  {
  }

  class FixedPasswordCredentialsValidator {
    var password: Option<string>
    var salt: Option<Bytes>
    var hashWithSalt: Option<Bytes>

    constructor ()
      ensures password.None? && salt.None? && hashWithSalt.None?
    {
      password, salt, hashWithSalt := None, None, None;
    }

    /** The constructor taking a password keeps only its salted hash: validation takes the hash path. */
    constructor FromPassword(p: string, crypto: Crypto)
      ensures password.None?
      ensures salt == Some(crypto.randomSalt)
      ensures hashWithSalt == Some(crypto.hashWithSalt(crypto.getBytes(p), crypto.randomSalt))
    {
      password := None;
      salt := Some(crypto.randomSalt);
      hashWithSalt := Some(crypto.hashWithSalt(crypto.getBytes(p), crypto.randomSalt));
    }

    function ValidateCredentials(info: AuthenticationInfo, crypto: Crypto): Validation
      reads this
    {
      CheckCredentials(password, salt, hashWithSalt, info, crypto)
    }

    /**
     * `configure`: `password` keeps its value unless the property is given;
     * `salt` and `hash` are replaced only when given. Malformed hex, or a
     * hash without any salt, raises an exception after the earlier fields
     * were assigned.
     */
    method Configure(p: ConfigProperties, crypto: Crypto) returns (error: Option<string>)
      modifies this
      ensures password == GetStringValue(p, "password", old(password))
      ensures "salt" !in p.values ==> salt == old(salt)
      ensures "salt" in p.values ==>
        match crypto.hexToBytes(p.values["salt"])
        case None => error == Some(BadHex) && salt == old(salt) && hashWithSalt == old(hashWithSalt)
        case Some(bytes) => salt == Some(bytes)
      ensures error.None? <==>
        && ("salt" in p.values ==> crypto.hexToBytes(p.values["salt"]).Some?)
        && ("hash" in p.values ==> crypto.hexToBytes(p.values["hash"]).Some? && salt.Some?)
      ensures error.None? && "hash" !in p.values ==> hashWithSalt == old(hashWithSalt)
      ensures error.None? && "hash" in p.values ==>
        hashWithSalt == Some(crypto.hashWithSalt(crypto.hexToBytes(p.values["hash"]).value, salt.value))
      ensures error.Some? ==> hashWithSalt == old(hashWithSalt)
    {
      password := GetStringValue(p, "password", password);
      var saltString := GetStringValue(p, "salt", None);
      if saltString.Some? {
        var bytes := crypto.hexToBytes(saltString.value);
        if bytes.None? {
          return Some(BadHex);
        }
        salt := bytes;
      }
      var hashString := GetStringValue(p, "hash", None);
      if hashString.Some? {
        var bytes := crypto.hexToBytes(hashString.value);
        if bytes.None? {
          return Some(BadHex);
        }
        if salt.None? {
          return Some(NullPointer);
        }
        hashWithSalt := Some(crypto.hashWithSalt(bytes.value, salt.value));
      }
      error := None;
    }
  }
}
