/** Configuration: the connection settings read from the environment once, by a singleton,
    and the check that the required environment variables are set. The process
    environment is a map from names to values; a name that is not in the map is unset. */
module Settings {
  import opened PyValues
  import opened PyText

  type Env = map<string, string>

  const GithubTokenVar: string := "GITHUB_TOKEN"
  const Neo4jUriVar: string := "NEO4J_URI"
  const Neo4jUsernameVar: string := "NEO4J_USERNAME"
  const Neo4jPasswordVar: string := "NEO4J_PASSWORD"
  const LangchainApiKeyVar: string := "LANGCHAIN_API_KEY"
  const LangchainTracingVar: string := "LANGCHAIN_TRACING_V2"
  const LangchainProjectVar: string := "LANGCHAIN_PROJECT"

  /** The variables `validate` requires, in the order it reports them. */
  const RequiredVars: seq<string> := [GithubTokenVar, Neo4jUriVar, Neo4jUsernameVar, Neo4jPasswordVar]

  const MissingVarsPrefix: string := "Missing environment variables: "
  const MissingApiKeyMessage: string := "LANGCHAIN_API_KEY must be provided in environment variables."

  const DefaultEndpoint: string := "https://models.inference.ai.azure.com"
  const DefaultModelName: string := "gpt-4o-mini"
  const DefaultNeo4jUri: string := "bolt://localhost:7689"
  const DefaultNeo4jUsername: string := "neo4j"
  const DefaultNeo4jPassword: string := "12345678"
  const DefaultProject: string := "HealthcareGraphRAG"

  /** `os.getenv(name, default)`. */
  function GetEnv(env: Env, name: string, default: string): (v: string)
    ensures name in env ==> v == env[name]
    ensures name !in env ==> v == default
  {
    if name in env then env[name] else default
  }

  /** `os.getenv(name)` is truthy: the variable is set to a non-empty value. */
  predicate IsSet(env: Env, name: string)
  {
    name in env && env[name] != ""
  }

  /** `[var for var in names if not os.getenv(var)]`. */
  function Unset(env: Env, names: seq<string>): (r: seq<string>)
    ensures |r| <= |names|
  {
    if |names| == 0 then []
    else Unset(env, names[..|names| - 1]) + (if IsSet(env, names[|names| - 1]) then [] else [names[|names| - 1]])
  }

  /** The unset names are exactly the names whose variable is unset or empty. */
  lemma {:induction false} UnsetMembers(env: Env, names: seq<string>)
    ensures forall v :: v in Unset(env, names) <==> v in names && !IsSet(env, v)
  {
    if |names| > 0 {
      var init := names[..|names| - 1];
      var last := names[|names| - 1];
      UnsetMembers(env, init);
      assert names == init + [last];
    }
  }

  function MissingVars(env: Env): seq<string>
  {
    Unset(env, RequiredVars)
  }

  /** `Config.validate`: the missing required variables, reported together, come before the
      LangSmith API key; it reads the environment only. */
  function Validate(env: Env): (r: Outcome<()>)
    ensures r.Ok? <==> (forall v :: v in RequiredVars ==> IsSet(env, v)) && IsSet(env, LangchainApiKeyVar)
    ensures MissingVars(env) != [] ==>
      r == Raise(ValueError(MissingVarsPrefix + Join(", ", MissingVars(env))))
    ensures MissingVars(env) == [] && !IsSet(env, LangchainApiKeyVar) ==>
      r == Raise(ValueError(MissingApiKeyMessage))
  {
    UnsetMembers(env, RequiredVars);
    var missing := MissingVars(env);
    if missing != [] then
      assert missing[0] in missing;
      Raise(ValueError(MissingVarsPrefix + Join(", ", missing)))
    else if !IsSet(env, LangchainApiKeyVar) then
      Raise(ValueError(MissingApiKeyMessage))
    else Ok(())
  }

  /** What importing the settings module does to the environment: tracing on, the API key
      set (to "" when absent) and the project name defaulted. */
  function ImportEnv(env: Env): (r: Env)
    ensures r.Keys == env.Keys + {LangchainTracingVar, LangchainApiKeyVar, LangchainProjectVar}
    ensures r[LangchainTracingVar] == "true"
    ensures r[LangchainApiKeyVar] == GetEnv(env, LangchainApiKeyVar, "")
    ensures r[LangchainProjectVar] == GetEnv(env, LangchainProjectVar, DefaultProject)
    ensures forall v :: v in env && v !in {LangchainTracingVar, LangchainApiKeyVar, LangchainProjectVar} ==> r[v] == env[v]
  {
    env[LangchainTracingVar := "true"]
       [LangchainApiKeyVar := GetEnv(env, LangchainApiKeyVar, "")]
       [LangchainProjectVar := GetEnv(env, LangchainProjectVar, DefaultProject)]
  }

  /** The settings object. Its fields are read from the environment, with defaults, when
      it is first constructed. */
  class Config {
    var githubToken: string
    var endpoint: string
    var modelName: string
    var neo4jUri: string
    var neo4jUsername: string
    var neo4jPassword: string

    constructor (env: Env)
      ensures githubToken == GetEnv(env, GithubTokenVar, "")
      ensures endpoint == DefaultEndpoint && modelName == DefaultModelName
      ensures neo4jUri == GetEnv(env, Neo4jUriVar, DefaultNeo4jUri)
      ensures neo4jUsername == GetEnv(env, Neo4jUsernameVar, DefaultNeo4jUsername)
      ensures neo4jPassword == GetEnv(env, Neo4jPasswordVar, DefaultNeo4jPassword)
    {
      githubToken := GetEnv(env, GithubTokenVar, "");
      endpoint := DefaultEndpoint;
      modelName := DefaultModelName;
      neo4jUri := GetEnv(env, Neo4jUriVar, DefaultNeo4jUri);
      neo4jUsername := GetEnv(env, Neo4jUsernameVar, DefaultNeo4jUsername);
      neo4jPassword := GetEnv(env, Neo4jPasswordVar, DefaultNeo4jPassword);
    }
  }

  /** `Config._instance`: `Config()` creates the instance on the first call and returns
      it, with its fields untouched, on every later call. */
  class ConfigSlot {
    var instance: Config?

    constructor ()
      ensures instance == null
    {
      instance := null;
    }

    method Obtain(env: Env) returns (config: Config)
      modifies this
      ensures old(instance) != null ==> config == old(instance) && instance == old(instance)
      ensures old(instance) == null ==> fresh(config) && instance == config && FromEnv(config, env)
    {
      if instance == null {
        instance := new Config(env);
      }
      config := instance;
    }
  }

  /** The fields the constructor reads from the environment `env`. */
  ghost predicate FromEnv(c: Config, env: Env)
    reads c
  {
    && c.githubToken == GetEnv(env, GithubTokenVar, "")
    && c.endpoint == DefaultEndpoint && c.modelName == DefaultModelName
    && c.neo4jUri == GetEnv(env, Neo4jUriVar, DefaultNeo4jUri)
    && c.neo4jUsername == GetEnv(env, Neo4jUsernameVar, DefaultNeo4jUsername)
    && c.neo4jPassword == GetEnv(env, Neo4jPasswordVar, DefaultNeo4jPassword)
  }

  /** Constructing twice gives one object, whose fields come from the first environment. */
  method ConstructTwice(slot: ConfigSlot, first: Env, second: Env) returns (c1: Config, c2: Config)
    requires slot.instance == null
    modifies slot
    ensures c1 == c2 && FromEnv(c2, first)
  {
    c1 := slot.Obtain(first);
    c2 := slot.Obtain(second);
  }

  // ---------------------------------------------------------------- properties

  /** The missing variables are reported in the order GITHUB_TOKEN, NEO4J_URI,
      NEO4J_USERNAME, NEO4J_PASSWORD, each exactly when it is unset or empty. */
  lemma MissingInOrder(env: Env)
    ensures MissingVars(env)
         == UnsetOne(env, GithubTokenVar) + UnsetOne(env, Neo4jUriVar)
          + UnsetOne(env, Neo4jUsernameVar) + UnsetOne(env, Neo4jPasswordVar)
  {
    var r4 := RequiredVars;
    var r3 := [GithubTokenVar, Neo4jUriVar, Neo4jUsernameVar];
    var r2 := [GithubTokenVar, Neo4jUriVar];
    var r1 := [GithubTokenVar];
    assert r4[..3] == r3 && r3[..2] == r2 && r2[..1] == r1 && r1[..0] == [];
    assert Unset(env, r1) == UnsetOne(env, GithubTokenVar);
    assert Unset(env, r2) == Unset(env, r1) + UnsetOne(env, Neo4jUriVar);
    assert Unset(env, r3) == Unset(env, r2) + UnsetOne(env, Neo4jUsernameVar);
    assert Unset(env, r4) == Unset(env, r3) + UnsetOne(env, Neo4jPasswordVar);
  }

  /** The report for one variable: its name when it is unset or empty. */
  function UnsetOne(env: Env, name: string): seq<string>
  {
    if IsSet(env, name) then [] else [name]
  }

  /** In an empty environment every required variable is reported, in order, and the
      defaults the settings object holds do not count. */
  lemma EmptyEnvironment()
    ensures MissingVars(map[]) == RequiredVars
    ensures Validate(map[]) == Raise(ValueError(MissingVarsPrefix
      + GithubTokenVar + ", " + Neo4jUriVar + ", " + Neo4jUsernameVar + ", " + Neo4jPasswordVar))
  {
    var e: Env := map[];
    NothingIsSet(e, RequiredVars);
    var sep := ", ";
    JoinFour(sep, GithubTokenVar, Neo4jUriVar, Neo4jUsernameVar, Neo4jPasswordVar);
    assert MissingVarsPrefix + (GithubTokenVar + sep + (Neo4jUriVar + sep + (Neo4jUsernameVar + sep + Neo4jPasswordVar)))
      == MissingVarsPrefix + GithubTokenVar + sep + Neo4jUriVar + sep + Neo4jUsernameVar + sep + Neo4jPasswordVar;
  }

  /** In an empty environment every name is unset. */
  lemma {:induction false} NothingIsSet(env: Env, names: seq<string>)
    requires forall k :: 0 <= k < |names| ==> !IsSet(env, names[k])
    ensures Unset(env, names) == names
  {
    if |names| > 0 {
      var init := names[..|names| - 1];
      var last := names[|names| - 1];
      assert forall k :: 0 <= k < |init| ==> init[k] == names[k];
      NothingIsSet(env, init);
      calc {
        Unset(env, names);
        Unset(env, init) + [last];
        init + [last];
        names;
      }
    }
  }

  lemma JoinFour(sep: string, a: string, b: string, c: string, d: string)
    ensures Join(sep, [a, b, c, d]) == a + sep + (b + sep + (c + sep + d))
  {
    assert [a, b, c, d][1..] == [b, c, d];
    JoinThree(sep, b, c, d);
  }

  /** A configuration built from an environment without the Neo4j settings holds their
      defaults, yet validation still reports those variables as missing. */
  lemma DefaultsDoNotValidate(env: Env)
    requires Neo4jUriVar !in env
    ensures GetEnv(env, Neo4jUriVar, DefaultNeo4jUri) == DefaultNeo4jUri != ""
    ensures Neo4jUriVar in MissingVars(env) && Validate(env).Raise?
  {
    UnsetMembers(env, RequiredVars);
    assert Neo4jUriVar in RequiredVars;
  }

  /** Importing the module does not change the outcome of validation: an absent API key
      becomes "", which is still unset. */
  lemma ImportKeepsValidation(env: Env)
    ensures Validate(ImportEnv(env)) == Validate(env)
  {
    var e := ImportEnv(env);
    forall v | v in RequiredVars ensures IsSet(e, v) <==> IsSet(env, v) {
      assert |v| < |LangchainTracingVar|;
      assert v != LangchainApiKeyVar && v != LangchainProjectVar;
    }
    UnsetAgree(env, e, RequiredVars);
  }

  lemma {:induction false} UnsetAgree(e1: Env, e2: Env, names: seq<string>)
    requires forall v :: v in names ==> (IsSet(e1, v) <==> IsSet(e2, v))
    ensures Unset(e1, names) == Unset(e2, names)
  {
    if |names| > 0 {
      UnsetAgree(e1, e2, names[..|names| - 1]);
      assert names[|names| - 1] in names;
    }
  }

  /** Importing twice is importing once. */
  lemma ImportIdempotent(env: Env)
    ensures ImportEnv(ImportEnv(env)) == ImportEnv(env)
  {
  }
}
