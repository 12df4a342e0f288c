/**
 * server/utils/validateEnv.js: the start-up check of the process environment.
 */
module ValidateEnv {
  import opened Text

  /** `process.env`: variable name to value. */
  type Env = map<string, string>

  /** `process.env[name]` as a JavaScript truth test sees it: unset and empty are both false. */
  predicate IsSet(env: Env, name: string) {
    name in env && env[name] != ""
  }

  /** The variables the server cannot start without. */
  const RequiredEnvVars: seq<string> := ["MONGODB_URI"]

  /** The names in `names` that are unset or empty in `env`, in their order in `names`. */
  function MissingIn(env: Env, names: seq<string>): seq<string>
    decreases |names|
  {
    if names == [] then []
    else
      var last := names[|names| - 1];
      MissingIn(env, names[..|names| - 1]) + (if IsSet(env, last) then [] else [last])
  }

  /** A name is reported missing exactly when it is required and unset or empty. */
  lemma {:induction false} MissingInMembers(env: Env, names: seq<string>)
    ensures forall v :: v in MissingIn(env, names) <==> v in names && !IsSet(env, v)
    decreases |names|
  {
    if names != [] {
      var init := names[..|names| - 1];
      MissingInMembers(env, init);
      assert names == init + [names[|names| - 1]];
    }
  }

  /** The `forEach` loop that collects `missingVars`. */
  method MissingVars(env: Env, required: seq<string>) returns (missing: seq<string>)
    ensures missing == MissingIn(env, required)
    ensures forall v :: v in missing <==> v in required && !IsSet(env, v)
  {
    missing := [];
    var i := 0;
    while i < |required|
      invariant 0 <= i <= |required|
      invariant missing == MissingIn(env, required[..i])
    {
      var varName := required[i];
      if !(varName in env && env[varName] != "") {
        missing := missing + [varName];
      }
      assert required[..i + 1][..i] == required[..i];
      i := i + 1;
    }
    assert required[..|required|] == required;
    MissingInMembers(env, required);
  }

  /** The URI schemes MongoDB accepts. */
  predicate MongoScheme(uri: string) {
    StartsWith(uri, "mongodb://") || StartsWith(uri, "mongodb+srv://")
  }

  /**
   * `validateEnvironment`: true exactly when `MONGODB_URI` is set, non-empty
   * and starts with "mongodb://" or "mongodb+srv://".
   */
  method ValidateEnvironment(env: Env) returns (ok: bool)
    ensures ok <==> IsSet(env, "MONGODB_URI") && MongoScheme(env["MONGODB_URI"])
  {
    var missingVars := MissingVars(env, RequiredEnvVars);
    if |missingVars| > 0 {
      return false;
    }
    assert "MONGODB_URI" in RequiredEnvVars;
    var mongoURI := env["MONGODB_URI"];
    if !StartsWith(mongoURI, "mongodb://") && !StartsWith(mongoURI, "mongodb+srv://") {
      return false;
    }
    return true;
  }
}
