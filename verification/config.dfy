/** `DocumentProcessor._get_active_config`: where the AI settings come from. The first active
    configuration row of the database wins when it has an API key; otherwise the environment
    variables `AIHUBMIX_API_KEY` and `AIHUBMIX_BASE_URL` are used, and simulation mode is
    switched on when either is missing or empty. */
module Config {
  import opened Common
  import opened Strings

  /** The fields of an `AIConfig` row that the resolution reads. */
  datatype AIConfigRow = AIConfigRow(
    apiKey: string,
    baseUrl: string,
    modelName: string,
    embeddingModel: string,
    temperature: real,
    maxTokens: int)

  /** The database query for the first active row: it either raised (`DbFailed`), or returned
      that row, or `None` when no row is active. */
  datatype DbLookup = DbFailed | DbActive(row: Option<AIConfigRow>)

  /** The two environment variables; `None` when unset. */
  datatype Environment = Environment(apiKey: Option<string>, baseUrl: Option<string>)

  /** The resolved settings dictionary. */
  datatype Config = Config(
    apiKey: string,
    baseUrl: string,
    modelName: string,
    embeddingModel: string,
    temperature: real,
    maxTokens: int,
    simulationMode: bool)

  const DefaultModelName: string := "gpt-3.5-turbo"
  const DefaultEmbeddingModel: string := "text-embedding-ada-002"
  const DefaultTemperature: real := 0.7
  const DefaultMaxTokens: int := 2000

  /** Python truthiness of an optional string: present and non-empty. */
  predicate Truthy(v: Option<string>)
  {
    v.Some? && v.value != ""
  }

  /** The database branch applies: an active row exists and its API key is non-empty. */
  predicate UsesDatabase(db: DbLookup)
  {
    db.DbActive? && db.row.Some? && db.row.value.apiKey != ""
  }

  /** No URL that ends in '/'. */
  predicate NoTrailingSlash(u: string)
  {
    u == [] || u[|u| - 1] != '/'
  }

  /** A configuration built from the environment, with the default model settings. */
  function FromEnvironment(apiKey: string, baseUrl: string, simulation: bool): (c: Config)
    ensures c.modelName == DefaultModelName && c.embeddingModel == DefaultEmbeddingModel
    ensures c.temperature == DefaultTemperature && c.maxTokens == DefaultMaxTokens
    ensures c.apiKey == apiKey && c.simulationMode == simulation
    ensures c.baseUrl == RStripChar(baseUrl, '/') && NoTrailingSlash(c.baseUrl)
  {
    Config(apiKey, RStripChar(baseUrl, '/'), DefaultModelName, DefaultEmbeddingModel,
           DefaultTemperature, DefaultMaxTokens, simulation)
  }

  /** `_get_active_config()` for one snapshot of the database and the environment. */
  function ResolveConfig(db: DbLookup, env: Environment): (c: Config)
    ensures NoTrailingSlash(c.baseUrl)
    ensures UsesDatabase(db) ==> !c.simulationMode && c.apiKey == db.row.value.apiKey
    ensures UsesDatabase(db) ==>
      && c.modelName == db.row.value.modelName && c.embeddingModel == db.row.value.embeddingModel
      && c.temperature == db.row.value.temperature && c.maxTokens == db.row.value.maxTokens
    ensures !UsesDatabase(db) ==>
      (c.simulationMode <==> !(Truthy(env.apiKey) && Truthy(env.baseUrl)))
    ensures !UsesDatabase(db) ==>
      && c.modelName == DefaultModelName && c.embeddingModel == DefaultEmbeddingModel
      && c.temperature == DefaultTemperature && c.maxTokens == DefaultMaxTokens
    ensures db.DbActive? && !UsesDatabase(db) && c.simulationMode ==> c.apiKey == "" && c.baseUrl == ""
    ensures db.DbFailed? ==> c.apiKey == env.apiKey.GetOr("")
  {
    match db
    case DbActive(row) =>
      if row.Some? && row.value.apiKey != "" then
        var r := row.value;
        Config(r.apiKey, RStripChar(r.baseUrl, '/'), r.modelName, r.embeddingModel,
               r.temperature, r.maxTokens, false)
      else if !Truthy(env.apiKey) || !Truthy(env.baseUrl) then
        FromEnvironment("", "", true)
      else
        FromEnvironment(env.apiKey.value, env.baseUrl.value, false)
    case DbFailed =>
      FromEnvironment(env.apiKey.GetOr(""), env.baseUrl.GetOr(""),
                      !(Truthy(env.apiKey) && Truthy(env.baseUrl)))
  }

  /** The base URL is the configured one with every trailing '/' removed: a prefix of it,
      followed in it only by slashes. */
  lemma BaseUrlIsStripped(db: DbLookup, env: Environment)
    ensures var c := ResolveConfig(db, env);
      var raw := if UsesDatabase(db) then db.row.value.baseUrl
                 else if c.simulationMode && db.DbActive? then ""
                 else env.baseUrl.GetOr("");
      && |c.baseUrl| <= |raw| && raw[..|c.baseUrl|] == c.baseUrl
      && (forall i :: |c.baseUrl| <= i < |raw| ==> raw[i] == '/')
  {
  }

  /** Whenever the real API is used, an API key is present. */
  lemma LiveHasKey(db: DbLookup, env: Environment)
    ensures var c := ResolveConfig(db, env); !c.simulationMode ==> c.apiKey != ""
  {
  }

  /** The database branch does not look at the URL: an active row with a key and an empty
      base URL still switches simulation off, leaving an empty base URL. */
  lemma DatabaseEmptyUrlIsLive(row: AIConfigRow, env: Environment)
    requires row.apiKey != "" && row.baseUrl == ""
    ensures var c := ResolveConfig(DbActive(Some(row)), env);
      !c.simulationMode && c.baseUrl == ""
  {
  }

  const SlashUrl: string := "/"

  /** Simulation is decided on the raw environment URL, before the slashes are removed: the
      URL "/" switches simulation off although the resolved base URL is empty. */
  lemma SlashUrlIsLive(db: DbLookup, key: string)
    requires !UsesDatabase(db) && key != ""
    ensures var c := ResolveConfig(db, Environment(Some(key), Some(SlashUrl)));
      !c.simulationMode && c.baseUrl == ""
  {
    assert RStripChar(SlashUrl, '/') == "";
  }

  /** A failed database query and a query that finds no usable row agree on the mode, and on
      everything else when the environment is complete; in simulation the failure path keeps
      whichever of the key and URL is set, where the other path empties both. */
  lemma FailureMatchesNoRow(row: Option<AIConfigRow>, env: Environment)
    requires !UsesDatabase(DbActive(row))
    ensures var failed := ResolveConfig(DbFailed, env);
      var none := ResolveConfig(DbActive(row), env);
      && failed.simulationMode == none.simulationMode
      && (!failed.simulationMode ==> failed == none)
      && (failed.simulationMode ==>
            failed.apiKey == env.apiKey.GetOr("") && none.apiKey == "" && none.baseUrl == "")
  {
  }
}
