/** The environment-variable resolver of spock/backend/resolvers.py: a string
    value of the form `${spock.env:NAME}` or `${spock.env:NAME,DEFAULT}` is
    replaced by the variable's value, cast to the attribute's type. The process
    environment is a map, and the cast `value_type(s)` a partial function that
    gives None where the cast raises. */
module Resolvers {
  import opened Results
  import opened Values
  import opened Strs

  type Env = map<string, string>
  type Cast = string -> Option<Value>

  const EnvPrefix: string := "${spock.env:"

  /** `^\${spock\.env:.*}$` matches all of `s`; `.` matches anything but a newline. */
  predicate EnvPattern(s: string) {
    |s| >= |EnvPrefix| + 1 && s[..|EnvPrefix|] == EnvPrefix && s[|s| - 1] == '}'
    && '\n' !in s[|EnvPrefix|..|s| - 1]
  }

  /** The text between the prefix and the closing brace. */
  function EnvBody(s: string): (r: string)
    requires EnvPattern(s)
    ensures s == EnvPrefix + r + "}"
  {
    var r := s[|EnvPrefix|..|s| - 1];
    assert s == s[..|EnvPrefix|] + r + [s[|s| - 1]];
    r
  }

  /** `value_type(v)`, with a raised exception reported as the resolver's error. */
  function CastEnv(cast: Cast, v: string): (r: Result<Value>)
    ensures r.Ok? <==> cast(v).Some?
    ensures r.Err? ==> r.exc == SpockEnvResolverError
    ensures r.Ok? ==> r.value == cast(v).value
  {
    match cast(v)
    case Some(x) => Ok(x)
    case None => Err(SpockEnvResolverError)
  }

  /** `_handle_default`: the default is stripped of whitespace, and the literal
      `None` stands for no value. */
  function HandleDefault(d: string): (r: Option<string>)
    ensures r.None? <==> Strip(d) == "None"
    ensures r.Some? ==> r.value == Strip(d)
  {
    var s := Strip(d);
    if s == "None" then None else Some(s)
  }

  /** `_get_env_value` on the text inside the braces. */
  function GetEnvValue(body: string, env: Env, cast: Cast): (r: Result<Value>)
    ensures Count(body, ',') > 1 ==> r == Err(SpockEnvResolverError)
    ensures Count(body, ',') == 0 ==> r == if body in env then CastEnv(cast, env[body]) else Err(SpockEnvResolverError)
  {
    SplitCount(body, ',');
    var pieces := Split(body, ',');
    if |pieces| == 2 then
      var name := pieces[0];
      match HandleDefault(pieces[1])
      case None => if name in env then CastEnv(cast, env[name]) else Ok(Null)
      case Some(d) => CastEnv(cast, if name in env then env[name] else d)
    else if |pieces| > 2 then Err(SpockEnvResolverError)
    else
      assert pieces == [body] by { SplitNoSep(body, ','); }
      if body in env then CastEnv(cast, env[body]) else Err(SpockEnvResolverError)
  }

  /** `parse_env_variables` */
  function ParseEnvVariables(v: Value, env: Env, cast: Cast): (r: Result<Value>)
    ensures !v.Str? ==> r == Ok(v)
    ensures v.Str? && !EnvPattern(v.s) ==> r == Ok(v)
    ensures v.Str? && EnvPattern(v.s) ==> r == GetEnvValue(EnvBody(v.s), env, cast)
  {
    if v.Str? && EnvPattern(v.s) then GetEnvValue(EnvBody(v.s), env, cast) else Ok(v)
  }

  lemma NoComma(name: string)
    requires ',' !in name
    ensures Count(name, ',') == 0
  {
    assert ',' !in multiset(name);
  }

  /** `${spock.env:NAME}` with a comma-free NAME (taken verbatim, spaces
      included): the variable's value cast to the type; an unset variable is an
      error. */
  lemma ResolveWithoutDefault(name: string, env: Env, cast: Cast)
    requires ',' !in name && '\n' !in name
    ensures ParseEnvVariables(Str(EnvPrefix + name + "}"), env, cast)
            == if name in env then CastEnv(cast, env[name]) else Err(SpockEnvResolverError)
  {
    var s := EnvPrefix + name + "}";
    assert s[|EnvPrefix|..|s| - 1] == name;
    assert s[..|EnvPrefix|] == EnvPrefix;
    NoComma(name);
  }

  /** A newline-free body between the prefix and the closing brace matches
      the pattern and is recovered by `EnvBody`. */
  lemma EnvBodyOf(body: string)
    requires '\n' !in body
    ensures EnvPattern(EnvPrefix + body + "}")
    ensures EnvBody(EnvPrefix + body + "}") == body
  {
    var s := EnvPrefix + body + "}";
    assert s[|EnvPrefix|..|s| - 1] == body;
    assert s[..|EnvPrefix|] == EnvPrefix;
  }

  /** A body with exactly one comma is split into the name and the default. */
  lemma GetEnvWithDefault(name: string, d: string, env: Env, cast: Cast)
    requires ',' !in name && ',' !in d
    ensures GetEnvValue(name + "," + d, env, cast)
            == if name in env then CastEnv(cast, env[name])
               else if Strip(d) == "None" then Ok(Null)
               else CastEnv(cast, Strip(d))
  {
    assert Join([name, d], ',') == name + "," + d;
    SplitJoin([name, d], ',');
  }

  /** `${spock.env:NAME,DEFAULT}`: a set variable wins; otherwise the stripped
      default is cast, and a default of `None` gives None without an error. */
  lemma ResolveWithDefault(name: string, d: string, env: Env, cast: Cast)
    requires ',' !in name && ',' !in d && '\n' !in name && '\n' !in d
    ensures ParseEnvVariables(Str(EnvPrefix + name + "," + d + "}"), env, cast)
            == if name in env then CastEnv(cast, env[name])
               else if Strip(d) == "None" then Ok(Null)
               else CastEnv(cast, Strip(d))
  {
    var body := name + "," + d;
    assert EnvPrefix + body + "}" == EnvPrefix + name + "," + d + "}";
    assert '\n' !in body;
    EnvBodyOf(body);
    GetEnvWithDefault(name, d, env, cast);
  }

  /** More than one comma inside the braces is a syntax error. */
  lemma ResolveTooManyCommas(name: string, rest: string, env: Env, cast: Cast)
    requires '\n' !in name && '\n' !in rest && ',' in rest
    ensures ParseEnvVariables(Str(EnvPrefix + name + "," + rest + "}"), env, cast).Err?
  {
    var body := name + "," + rest;
    var s := EnvPrefix + body + "}";
    assert s == EnvPrefix + name + "," + rest + "}";
    assert s[|EnvPrefix|..|s| - 1] == body;
    assert s[..|EnvPrefix|] == EnvPrefix;
    assert '\n' !in body;
    assert multiset(body) == multiset(name) + multiset(",") + multiset(rest);
    assert ',' in multiset(rest);
  }
}
