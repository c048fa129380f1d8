/** Retrieval of the application's secrets: each secret lives in the
    environment encrypted under the master key (`<NAME>_ENC`), optionally with
    the SHA-256 hex digest of its plaintext (`<NAME>_HASH`); decrypted values
    are cached in production. The environment is read at each call and is a
    parameter; the cipher and the digest are function parameters. */
module KeyManager {
  import opened Common
  import Encryption

  const MASTER_KEY_VAR: string := "ENCRYPTION_MASTER_KEY"
  const MASTER_KEY_MISSING: string := "CRITICAL: ENCRYPTION_MASTER_KEY not found"
  const MASTER_KEY_MALFORMED: string := "CRITICAL: ENCRYPTION_MASTER_KEY must be 64 hex chars"

  function MissingKeyError(keyName: string): string {
    "Missing encrypted key: " + keyName + "_ENC"
  }

  function DecryptError(keyName: string, message: string): string {
    "Failed to decrypt " + keyName + ": " + message
  }

  function IntegrityError(keyName: string): string {
    "Integrity check failed for " + keyName
  }

  /** The constructor's check of the master key: present, non-empty and
      exactly 64 characters long. */
  function MasterKey(env: map<string, string>): (r: Result<string>)
    ensures r.Success? <==> MASTER_KEY_VAR in env && |env[MASTER_KEY_VAR]| == 64
    ensures r.Success? ==> r.value == env[MASTER_KEY_VAR]
    ensures r.Failure? ==> r.error == (if ValueOr(env, MASTER_KEY_VAR, "") == "" then MASTER_KEY_MISSING
                                       else MASTER_KEY_MALFORMED)
  {
    var key := ValueOr(env, MASTER_KEY_VAR, "");
    if key == "" then Failure(MASTER_KEY_MISSING)
    else if |key| != 64 then Failure(MASTER_KEY_MALFORMED)
    else Success(key)
  }

  /** A key made by the encryption service's generator passes the check. */
  lemma GeneratedKeyAccepted(env: map<string, string>, random: seq<Encryption.Byte>)
    requires |random| == Encryption.KEY_LENGTH
    ensures MasterKey(env[MASTER_KEY_VAR := Encryption.GenerateMasterKey(random)]).Success?
  {
  }

  /** `validateIntegrity`: a value without a recorded digest is accepted;
      otherwise its digest must equal the recorded one. */
  function ValidateIntegrity(keyName: string, value: string, env: map<string, string>,
                             hash: string -> string): (r: Outcome)
    ensures r.Pass? <==> ValueOr(env, keyName + "_HASH", "") == "" || hash(value) == env[keyName + "_HASH"]
    ensures r.Fail? ==> r.error == IntegrityError(keyName)
  {
    var expected := ValueOr(env, keyName + "_HASH", "");
    if expected == "" then Pass
    else if hash(value) != expected then Fail(IntegrityError(keyName))
    else Pass
  }

  /** What `getKey` produces when the cache does not answer: read the
      encrypted value, decrypt it, check its digest. */
  function Fetch(keyName: string, masterKey: string, env: map<string, string>,
                 open: (string, string, string, string) -> Result<string>, hash: string -> string): (r: Result<string>)
    ensures ValueOr(env, keyName + "_ENC", "") == "" ==> r == Failure(MissingKeyError(keyName))
    ensures ValueOr(env, keyName + "_ENC", "") != "" ==>
      var d := Encryption.Decrypt(env[keyName + "_ENC"], masterKey, open);
      && (d.Failure? ==> r == Failure(DecryptError(keyName, d.error)))
      && (d.Success? ==> r == (if ValidateIntegrity(keyName, d.value, env, hash).Pass? then d
                               else Failure(IntegrityError(keyName))))
  {
    var encrypted := ValueOr(env, keyName + "_ENC", "");
    if encrypted == "" then Failure(MissingKeyError(keyName))
    else
      var d := Encryption.Decrypt(encrypted, masterKey, open);
      if d.Failure? then Failure(DecryptError(keyName, d.error))
      else
        match ValidateIntegrity(keyName, d.value, env, hash)
        case Fail(e) => Failure(e)
        case Pass => d
  }

  /** A returned secret always passed the integrity check. */
  lemma FetchedValuesAreIntact(keyName: string, masterKey: string, env: map<string, string>,
                               open: (string, string, string, string) -> Result<string>, hash: string -> string)
    requires Fetch(keyName, masterKey, env, open, hash).Success?
    requires keyName + "_HASH" in env && env[keyName + "_HASH"] != ""
    ensures hash(Fetch(keyName, masterKey, env, open, hash).value) == env[keyName + "_HASH"]
  {
  }

  class KeyManager {
    const masterKey: string
    const cacheEnabled: bool
    var cache: map<string, string>

    /** Caching is on only in production, so outside it the cache stays empty. */
    predicate Valid()
      reads this
    {
      !cacheEnabled ==> cache == map[]
    }

    /** Every cached value is what a fresh read of `env` would give. */
    predicate CoherentWith(env: map<string, string>,
                           open: (string, string, string, string) -> Result<string>, hash: string -> string)
      reads this
    {
      forall k :: k in cache ==> Fetch(k, masterKey, env, open, hash) == Success(cache[k])
    }

    /** The constructor once its master-key check has passed. */
    constructor(key: string, env: map<string, string>)
      requires MasterKey(env) == Success(key)
      ensures masterKey == key && cache == map[]
      ensures cacheEnabled <==> "NODE_ENV" in env && env["NODE_ENV"] == "production"
      ensures Valid()
    {
      masterKey := key;
      cacheEnabled := "NODE_ENV" in env && env["NODE_ENV"] == "production";
      cache := map[];
    }

    /** `getKey(keyName)` */
    method GetKey(keyName: string, env: map<string, string>,
                  open: (string, string, string, string) -> Result<string>, hash: string -> string)
      returns (r: Result<string>)
      requires Valid()
      modifies this`cache
      ensures Valid()
      // a cached name is answered from the cache without reading the environment
      ensures cacheEnabled && keyName in old(cache) ==> r == Success(old(cache)[keyName]) && cache == old(cache)
      ensures !(cacheEnabled && keyName in old(cache)) ==>
        && r == Fetch(keyName, masterKey, env, open, hash)
        // only a value that passed every check enters the cache, and only in production
        && cache == (if cacheEnabled && r.Success? then old(cache)[keyName := r.value] else old(cache))
      // the cache is invisible to callers whose environment does not change
      ensures old(CoherentWith(env, open, hash)) ==>
        r == Fetch(keyName, masterKey, env, open, hash) && CoherentWith(env, open, hash)
    {
      if cacheEnabled && keyName in cache {
        return Success(cache[keyName]);
      }
      var encrypted := ValueOr(env, keyName + "_ENC", "");
      if encrypted == "" {
        return Failure(MissingKeyError(keyName));
      }
      var decrypted := Encryption.Decrypt(encrypted, masterKey, open);
      if decrypted.Failure? {
        return Failure(DecryptError(keyName, decrypted.error));
      }
      var check := ValidateIntegrity(keyName, decrypted.value, env, hash);
      if check.Fail? {
        return Failure(check.error);
      }
      if cacheEnabled {
        cache := cache[keyName := decrypted.value];
      }
      r := decrypted;
    }

    /** `clearCache()` */
    method ClearCache()
      modifies this`cache
      ensures cache == map[]
      ensures Valid()
    {
      cache := map[];
    }
  }

  /** Construction as the module does it on load: the master-key check,
      then a manager with an empty cache. */
  method Load(env: map<string, string>) returns (r: Result<KeyManager>)
    ensures r.Failure? <==> MasterKey(env).Failure?
    ensures r.Failure? ==> r.error == MasterKey(env).error
    ensures r.Success? ==>
      fresh(r.value) && r.value.Valid() && r.value.cache == map[] && r.value.masterKey == MasterKey(env).value
  {
    var key := MasterKey(env);
    if key.Failure? {
      return Failure(key.error);
    }
    var manager := new KeyManager(key.value, env);
    r := Success(manager);
  }
}
