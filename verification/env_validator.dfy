/** Start-up validation of the process environment and the configuration
    record derived from it. The environment is a map from variable name to
    value; an absent name is `undefined`. */
module EnvValidator {
  import opened Wrappers
  import opened JsText
  import opened Subsequences

  type Env = map<string, string>

  /** The variables the application cannot start without, in declaration order. */
  const Required: seq<string> :=
    ["DATABASE_HOST", "DATABASE_USER", "DATABASE_PASSWORD", "DATABASE_NAME", "ADJUTOR_API_KEY"]

  const LogLevels: seq<string> := ["error", "warn", "info", "debug"]

  const DatabasePortInvalid := "DATABASE_PORT must be a valid number"
  const PortInvalid := "PORT must be a valid number"
  const LogLevelInvalid := "LOG_LEVEL must be one of: error, warn, info, debug"

  const MissingPrefix := "Missing required environment variables: "
  const InvalidPrefix := "Invalid environment variables: "

  /** `process.env[name]` is truthy: present and not the empty string. */
  predicate IsSet(env: Env, name: string) {
    name in env && env[name] != ""
  }

  /** `xs.join(sep)`. */
  function Join(xs: seq<string>, sep: string): string {
    if |xs| == 0 then ""
    else if |xs| == 1 then xs[0]
    else Join(xs[..|xs| - 1], sep) + sep + xs[|xs| - 1]
  }

  /** The names among `names` that are unset or empty, kept in their order. */
  function MissingAmong(names: seq<string>, env: Env): (m: seq<string>)
    ensures forall x :: x in m <==> x in names && !IsSet(env, x)
    ensures IsSubsequence(m, names)
  {
    if |names| == 0 then []
    else
      var rest := MissingAmong(names[1..], env);
      if IsSet(env, names[0]) then
        SubsequenceExtendFront(rest, names);
        rest
      else
        var m := [names[0]] + rest;
        assert m[1..] == rest;
        m
  }

  /** The `missing` list: required variables that are unset or empty. */
  function Missing(env: Env): (m: seq<string>)
    ensures forall x :: x in m <==> x in Required && !IsSet(env, x)
    ensures IsSubsequence(m, Required)
  {
    MissingAmong(Required, env)
  }

  /** The `invalid` list. `isNumber(s)` stands for `!isNaN(Number(s))`; a
      variable that is unset or empty is never checked. */
  function Invalid(env: Env, isNumber: string -> bool): (inv: seq<string>)
    ensures DatabasePortInvalid in inv
            <==> IsSet(env, "DATABASE_PORT") && !isNumber(env["DATABASE_PORT"])
    ensures PortInvalid in inv <==> IsSet(env, "PORT") && !isNumber(env["PORT"])
    ensures LogLevelInvalid in inv <==> IsSet(env, "LOG_LEVEL") && env["LOG_LEVEL"] !in LogLevels
    ensures IsSubsequence(inv, [DatabasePortInvalid, PortInvalid, LogLevelInvalid])
  {
    var a := if IsSet(env, "DATABASE_PORT") && !isNumber(env["DATABASE_PORT"])
             then [DatabasePortInvalid] else [];
    var b := if IsSet(env, "PORT") && !isNumber(env["PORT"]) then [PortInvalid] else [];
    var c := if IsSet(env, "LOG_LEVEL") && env["LOG_LEVEL"] !in LogLevels
             then [LogLevelInvalid] else [];
    var inv := a + b + c;
    SubsequenceOfPicks(a, b, c);
    inv
  }

  /** Choosing some of three values, in order, gives a subsequence of the three. */
  lemma SubsequenceOfPicks(a: seq<string>, b: seq<string>, c: seq<string>)
    requires a == [] || a == [DatabasePortInvalid]
    requires b == [] || b == [PortInvalid]
    requires c == [] || c == [LogLevelInvalid]
    ensures IsSubsequence(a + b + c, [DatabasePortInvalid, PortInvalid, LogLevelInvalid])
  {
    var all := [DatabasePortInvalid, PortInvalid, LogLevelInvalid];
    SubsequenceOfSelf(all);
    SubsequenceOfSelf(all[1..]);
    SubsequenceOfSelf(all[2..]);
    if a == [] {
      SubsequenceExtendFront(b + c, all);
      if b == [] {
        SubsequenceExtendFront(c, all[1..]);
      }
    }
    if b == [] && a != [] {
      assert (a + b + c)[1..] == c;
      SubsequenceExtendFront(c, all[1..]);
    }
  }

  /** `validateEnvironment()`: `Success` when nothing is missing or invalid,
      otherwise the message of the error it throws. */
  function ValidateEnvironment(env: Env, isNumber: string -> bool): (r: Result<(), string>)
    ensures r.Success? <==> Missing(env) == [] && Invalid(env, isNumber) == []
    ensures Missing(env) != [] ==> r == Failure(MissingPrefix + Join(Missing(env), ", "))
    ensures Missing(env) == [] && Invalid(env, isNumber) != []
            ==> r == Failure(InvalidPrefix + Join(Invalid(env, isNumber), ", "))
  {
    var missing := Missing(env);
    var invalid := Invalid(env, isNumber);
    if |missing| > 0 then Failure(MissingPrefix + Join(missing, ", "))
    else if |invalid| > 0 then Failure(InvalidPrefix + Join(invalid, ", "))
    else Success(())
  }

  datatype DatabaseConfig = DatabaseConfig(
    host: Option<string>, port: Option<int>, user: Option<string>,
    password: Option<string>, name: Option<string>)

  datatype AppSettings = AppSettings(port: Option<int>, nodeEnv: string, logLevel: string)

  /** The record `getEnvironmentConfig()` returns; a port is `None` when
      `parseInt` yields `NaN`. */
  datatype EnvConfig = EnvConfig(database: DatabaseConfig, adjutorApiKey: Option<string>, app: AppSettings)

  function Lookup(env: Env, name: string): Option<string> {
    if name in env then Some(env[name]) else None
  }

  /** `process.env[name] || fallback`. */
  function OrDefault(env: Env, name: string, fallback: string): (v: string)
    ensures IsSet(env, name) ==> v == env[name]
    ensures !IsSet(env, name) ==> v == fallback
  {
    if IsSet(env, name) then env[name] else fallback
  }

  /** The fallback port strings read back as the numbers they spell. */
  lemma DefaultPortsParse()
    ensures ParseInt("3306") == Some(3306) && ParseInt("3000") == Some(3000)
  {
    Spell3306();
    ParseIntOfDecimal(3306);
    Spell3000();
    ParseIntOfDecimal(3000);
  }

  lemma Spell3306()
    ensures DecimalString(3306) == "3306"
  {
    assert DecimalString(3) == "3";
    assert DecimalString(33) == "33";
    assert DecimalString(330) == "330";
  }

  lemma Spell3000()
    ensures DecimalString(3000) == "3000"
  {
    assert DecimalString(3) == "3";
    assert DecimalString(30) == "30";
    assert DecimalString(300) == "300";
  }

  /** `getEnvironmentConfig()`. */
  function GetEnvironmentConfig(env: Env): (c: EnvConfig)
    ensures !IsSet(env, "DATABASE_PORT") ==> c.database.port == Some(3306)
    ensures !IsSet(env, "PORT") ==> c.app.port == Some(3000)
    ensures IsSet(env, "DATABASE_PORT") ==> c.database.port == ParseInt(env["DATABASE_PORT"])
    ensures IsSet(env, "PORT") ==> c.app.port == ParseInt(env["PORT"])
    ensures c.app.nodeEnv == (if IsSet(env, "NODE_ENV") then env["NODE_ENV"] else "development")
    ensures c.app.logLevel == (if IsSet(env, "LOG_LEVEL") then env["LOG_LEVEL"] else "info")
    ensures c.database.host == Lookup(env, "DATABASE_HOST")
    ensures c.database.user == Lookup(env, "DATABASE_USER")
    ensures c.database.password == Lookup(env, "DATABASE_PASSWORD")
    ensures c.database.name == Lookup(env, "DATABASE_NAME")
    ensures c.adjutorApiKey == Lookup(env, "ADJUTOR_API_KEY")
  {
    DefaultPortsParse();
    EnvConfig(
      DatabaseConfig(
        Lookup(env, "DATABASE_HOST"),
        ParseInt(OrDefault(env, "DATABASE_PORT", "3306")),
        Lookup(env, "DATABASE_USER"),
        Lookup(env, "DATABASE_PASSWORD"),
        Lookup(env, "DATABASE_NAME")),
      Lookup(env, "ADJUTOR_API_KEY"),
      AppSettings(
        ParseInt(OrDefault(env, "PORT", "3000")),
        OrDefault(env, "NODE_ENV", "development"),
        OrDefault(env, "LOG_LEVEL", "info")))
  }

  /** An environment that passes validation yields a configuration whose
      credentials are all present and non-empty and whose log level is one
      of the four accepted levels. */
  lemma ValidatedConfig(env: Env, isNumber: string -> bool)
    requires ValidateEnvironment(env, isNumber).Success?
    ensures var c := GetEnvironmentConfig(env);
            && c.database.host.Some? && c.database.host.value != ""
            && c.database.user.Some? && c.database.user.value != ""
            && c.database.password.Some? && c.database.password.value != ""
            && c.database.name.Some? && c.database.name.value != ""
            && c.adjutorApiKey.Some? && c.adjutorApiKey.value != ""
            && c.app.logLevel in LogLevels
  {
    var m := Missing(env);
    assert m == [];
    forall x | x in Required
      ensures IsSet(env, x)
    {
      assert x !in m;
    }
    assert IsSet(env, Required[0]) && IsSet(env, Required[1]) && IsSet(env, Required[2]);
    assert IsSet(env, Required[3]) && IsSet(env, Required[4]);
  }
}
