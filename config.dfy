/**
 * `config.Load`: the settings of the server, the database, authentication and
 * the completion service, each read from the process environment with a
 * default.  The environment is a map from variable names to values; a variable
 * that is not in the map reads as the empty string, as `os.Getenv` returns.
 */
module Config {
  import opened Wrappers
  import opened Text
  import Scanf
  import Completion
  import Models
  import RecommendationService

  type Env = map<string, string>

  datatype ServerConfig = ServerConfig(port: string)

  datatype DatabaseConfig = DatabaseConfig(
    host: string,
    port: string,
    user: string,
    password: string,
    name: string,
    sslMode: string)

  /** `TokenDuration` is in hours. */
  datatype AuthConfig = AuthConfig(jwtSecret: string, tokenDuration: int)

  datatype YandexGptConfig = YandexGptConfig(apiKey: string, model: string)

  datatype Config = Config(
    server: ServerConfig,
    database: DatabaseConfig,
    auth: AuthConfig,
    yandexGpt: YandexGptConfig)

  /** The text settings and their defaults. */
  const StringDefaults: map<string, string> := map[
    "PORT" := "8080",
    "DB_HOST" := "localhost",
    "DB_PORT" := "5432",
    "DB_USER" := "postgres",
    "DB_PASSWORD" := "postgres",
    "DB_NAME" := "planter",
    "DB_SSLMODE" := "disable",
    "JWT_SECRET" := "your-secret-key",
    "YANDEX_GPT_API_KEY" := "",
    "YANDEX_GPT_MODEL" := "yandexgpt"]

  const TokenDurationKey := "TOKEN_DURATION"
  const DefaultTokenDuration := 24

  /** `os.Getenv`. */
  function Getenv(env: Env, key: string): string
  {
    if key in env then env[key] else ""
  }

  /** `getEnv`: the variable's value, or the default when it is unset or empty. */
  function GetEnv(env: Env, key: string, defaultValue: string): (v: string)
    ensures Getenv(env, key) != "" ==> v == env[key]
    ensures Getenv(env, key) == "" ==> v == defaultValue
    ensures v == "" ==> defaultValue == ""
  {
    var value := Getenv(env, key);
    if value == "" then defaultValue else value
  }

  /**
   * `strconv.Atoi` on a 64-bit platform: an optional sign and decimal digits,
   * whose value must fit in an int64.
   */
  function Atoi(s: string): (r: Option<int>)
    ensures r.Some? ==> Scanf.Int64Min <= r.value <= Scanf.Int64Max
    ensures r.Some? ==> ParseDecimal(s) == r
    ensures r.None? ==> ParseDecimal(s).None? || ParseDecimal(s).value < Scanf.Int64Min
                        || ParseDecimal(s).value > Scanf.Int64Max
  {
    match ParseDecimal(s)
    case None => None
    case Some(n) => if n < Scanf.Int64Min || n > Scanf.Int64Max then None else Some(n)
  }

  /** `getEnvAsInt`: the variable's integer, or the default when it is unset, empty or not an int64 numeral. */
  function GetEnvAsInt(env: Env, key: string, defaultValue: int): (n: int)
    ensures Atoi(Getenv(env, key)).Some? ==> n == Atoi(Getenv(env, key)).value
    ensures Atoi(Getenv(env, key)).None? ==> n == defaultValue
  {
    var valueStr := GetEnv(env, key, "");
    if valueStr == "" then defaultValue
    else match Atoi(valueStr)
      case None => defaultValue
      case Some(value) => value
  }

  /** The setting `Load` fills from a text variable, by the variable's name. */
  function Setting(c: Config, key: string): Option<string>
  {
    if key == "PORT" then Some(c.server.port)
    else if key == "DB_HOST" then Some(c.database.host)
    else if key == "DB_PORT" then Some(c.database.port)
    else if key == "DB_USER" then Some(c.database.user)
    else if key == "DB_PASSWORD" then Some(c.database.password)
    else if key == "DB_NAME" then Some(c.database.name)
    else if key == "DB_SSLMODE" then Some(c.database.sslMode)
    else if key == "JWT_SECRET" then Some(c.auth.jwtSecret)
    else if key == "YANDEX_GPT_API_KEY" then Some(c.yandexGpt.apiKey)
    else if key == "YANDEX_GPT_MODEL" then Some(c.yandexGpt.model)
    else None
  }

  /** `Load`. */
  function Load(env: Env): (c: Config)
    ensures forall key :: key in StringDefaults ==> Setting(c, key) == Some(GetEnv(env, key, StringDefaults[key]))
    ensures c.auth.tokenDuration == GetEnvAsInt(env, TokenDurationKey, DefaultTokenDuration)
  {
    Config(
      ServerConfig(GetEnv(env, "PORT", "8080")),
      DatabaseConfig(
        GetEnv(env, "DB_HOST", "localhost"),
        GetEnv(env, "DB_PORT", "5432"),
        GetEnv(env, "DB_USER", "postgres"),
        GetEnv(env, "DB_PASSWORD", "postgres"),
        GetEnv(env, "DB_NAME", "planter"),
        GetEnv(env, "DB_SSLMODE", "disable")),
      AuthConfig(GetEnv(env, "JWT_SECRET", "your-secret-key"), GetEnvAsInt(env, TokenDurationKey, DefaultTokenDuration)),
      YandexGptConfig(GetEnv(env, "YANDEX_GPT_API_KEY", ""), GetEnv(env, "YANDEX_GPT_MODEL", "yandexgpt")))
  }

  /** With nothing set, every setting is its default. */
  lemma EmptyEnvironmentGivesDefaults()
    ensures Load(map[]) == Config(
              ServerConfig("8080"),
              DatabaseConfig("localhost", "5432", "postgres", "postgres", "planter", "disable"),
              AuthConfig("your-secret-key", 24),
              YandexGptConfig("", "yandexgpt"))
  {
  }

  /** A text variable set to a non-empty value is the setting; an empty one is its default. */
  lemma SetVariableWins(env: Env, key: string, value: string)
    requires key in StringDefaults
    ensures value != "" ==> Setting(Load(env[key := value]), key) == Some(value)
    ensures value == "" ==> Setting(Load(env[key := value]), key) == Some(StringDefaults[key])
  {
    assert Getenv(env[key := value], key) == value;
  }

  /** Every int64 written out in decimal reads back as the token duration. */
  lemma TokenDurationRoundTrip(env: Env, hours: int)
    requires Scanf.Int64Min <= hours <= Scanf.Int64Max
    ensures Load(env[TokenDurationKey := IntToString(hours)]).auth.tokenDuration == hours
  {
    ParseIntToString(hours);
    assert Getenv(env[TokenDurationKey := IntToString(hours)], TokenDurationKey) == IntToString(hours);
  }

  /** A token duration that is not a numeral, or is beyond the int64 range, leaves the default of 24 hours. */
  lemma BadTokenDurationIsDefault(env: Env, text: string)
    requires ParseDecimal(text).None? || ParseDecimal(text).value > Scanf.Int64Max
    ensures Load(env[TokenDurationKey := text]).auth.tokenDuration == DefaultTokenDuration
  {
    assert Getenv(env[TokenDurationKey := text], TokenDurationKey) == text;
  }

  /** With no completion key in the environment, the recommendations always come from the local scorer. */
  lemma UnsetKeyMeansLocalOnly(env: Env, endpoint: Completion.Endpoint, q: Models.Questionnaire,
                               plants: seq<Models.Plant>, recs: seq<Models.Recommendation>)
    requires Getenv(env, "YANDEX_GPT_API_KEY") == ""
    ensures var c := Load(env);
            RecommendationService.Chosen(endpoint, c.yandexGpt.apiKey, c.yandexGpt.model, q, plants, recs)
            <==> RecommendationService.IsLocalResult(q, plants, recs)
  {
    var c := Load(env);
    assert c.yandexGpt.apiKey == "";
    RecommendationService.EmptyKeyIgnoresModel(endpoint, endpoint, c.yandexGpt.model, c.yandexGpt.model, q, plants, recs);
  }
}
