/**
 * Configuration: the settings record built from environment variables with
 * defaults, and the check that accepts or rejects it.
 */
module Configuration {
  import opened Wrappers

  /** The process environment: variable name to value. */
  type Env = map<string, string>

  /** Durations are counted in nanoseconds. */
  const Second: int := 1_000_000_000
  const Minute: int := 60 * Second

  /** The parsers the loader relies on, left abstract: integer parsing and
      duration parsing, each answering None for text it rejects. */
  datatype Parsers = Parsers(atoi: string -> Option<int>, parseDuration: string -> Option<int>)

  datatype KeyDBConfig = KeyDBConfig(host: string, port: int, password: string, database: int, poolSize: int)
  datatype MigrationConfig = MigrationConfig(batchSize: int, workers: int, timeout: int, retryCount: int, retryDelay: int)
  datatype LoggingConfig = LoggingConfig(level: string, format: string)
  datatype Config = Config(source: KeyDBConfig, destination: KeyDBConfig, migration: MigrationConfig, logging: LoggingConfig)

  datatype ConfigError = EmptySourceHost | EmptyDestinationHost | NonPositiveWorkers | NonPositiveBatchSize

  /** What Load returns: the record, and the verdict of Validate on it. */
  datatype Loaded = Loaded(config: Config, err: Outcome<ConfigError>)

  /** os.Getenv: an unset variable reads as the empty string. */
  function Getenv(env: Env, key: string): string
  {
    if key in env then env[key] else ""
  }

  function GetEnvOrDefault(env: Env, key: string, default: string): (r: string)
    ensures Getenv(env, key) != "" ==> r == env[key]
    ensures Getenv(env, key) == "" ==> r == default
  {
    var value := Getenv(env, key);
    if value != "" then value else default
  }

  function GetEnvIntOrDefault(env: Env, key: string, default: int, atoi: string -> Option<int>): (r: int)
    ensures Getenv(env, key) == "" ==> r == default
    ensures Getenv(env, key) != "" && atoi(env[key]).None? ==> r == default
    ensures Getenv(env, key) != "" && atoi(env[key]).Some? ==> r == atoi(env[key]).value
  {
    var value := Getenv(env, key);
    if value != "" && atoi(value).Some? then atoi(value).value else default
  }

  function GetDurationOrDefault(env: Env, key: string, default: int, parseDuration: string -> Option<int>): (r: int)
    ensures Getenv(env, key) == "" ==> r == default
    ensures Getenv(env, key) != "" && parseDuration(env[key]).None? ==> r == default
    ensures Getenv(env, key) != "" && parseDuration(env[key]).Some? ==> r == parseDuration(env[key]).value
  {
    var value := Getenv(env, key);
    if value != "" && parseDuration(value).Some? then parseDuration(value).value else default
  }

  /** validate: the first failing condition among source host, destination
      host, workers and batch size, in that order. */
  function Validate(c: Config): (r: Outcome<ConfigError>)
    ensures r.Pass? <==> && c.source.host != "" && c.destination.host != ""
                         && c.migration.workers > 0 && c.migration.batchSize > 0
    ensures c.source.host == "" ==> r == Fail(EmptySourceHost)
    ensures c.source.host != "" && c.destination.host == "" ==> r == Fail(EmptyDestinationHost)
    ensures c.source.host != "" && c.destination.host != "" && c.migration.workers <= 0 ==> r == Fail(NonPositiveWorkers)
    ensures (c.source.host != "" && c.destination.host != "" && c.migration.workers > 0
             && c.migration.batchSize <= 0) ==> r == Fail(NonPositiveBatchSize)
  {
    if c.source.host == "" then Fail(EmptySourceHost)
    else if c.destination.host == "" then Fail(EmptyDestinationHost)
    else if c.migration.workers <= 0 then Fail(NonPositiveWorkers)
    else if c.migration.batchSize <= 0 then Fail(NonPositiveBatchSize)
    else Pass
  }

  /** Load: the record built from the environment, returned together with
      the verdict of Validate on it, whether that verdict is Pass or not. */
  function Load(env: Env, p: Parsers): (r: Loaded)
    ensures r.err == Validate(r.config)
  {
    var config := Config(
      KeyDBConfig(
        GetEnvOrDefault(env, "SOURCE_KEYDB_HOST", "localhost"),
        GetEnvIntOrDefault(env, "SOURCE_KEYDB_PORT", 6379, p.atoi),
        Getenv(env, "SOURCE_KEYDB_PASSWORD"),
        GetEnvIntOrDefault(env, "SOURCE_KEYDB_DB", 0, p.atoi),
        GetEnvIntOrDefault(env, "SOURCE_KEYDB_POOL_SIZE", 20, p.atoi)),
      KeyDBConfig(
        GetEnvOrDefault(env, "DEST_KEYDB_HOST", "localhost"),
        GetEnvIntOrDefault(env, "DEST_KEYDB_PORT", 6379, p.atoi),
        Getenv(env, "DEST_KEYDB_PASSWORD"),
        GetEnvIntOrDefault(env, "DEST_KEYDB_DB", 0, p.atoi),
        GetEnvIntOrDefault(env, "DEST_KEYDB_POOL_SIZE", 20, p.atoi)),
      MigrationConfig(
        GetEnvIntOrDefault(env, "MIGRATION_BATCH_SIZE", 1000, p.atoi),
        GetEnvIntOrDefault(env, "MIGRATION_WORKERS", 10, p.atoi),
        GetDurationOrDefault(env, "MIGRATION_TIMEOUT", 30 * Minute, p.parseDuration),
        GetEnvIntOrDefault(env, "MIGRATION_RETRY_COUNT", 3, p.atoi),
        GetDurationOrDefault(env, "MIGRATION_RETRY_DELAY", 1 * Second, p.parseDuration)),
      LoggingConfig(
        GetEnvOrDefault(env, "LOG_LEVEL", "info"),
        GetEnvOrDefault(env, "LOG_FORMAT", "json")));
    Loaded(config, Validate(config))
  }

  /** A variable set to the empty string reads exactly as an unset one. */
  lemma EmptyMeansUnset(env: Env, key: string, default: string, p: Parsers)
    ensures GetEnvOrDefault(env[key := ""], key, default) == GetEnvOrDefault(env - {key}, key, default) == default
    ensures GetEnvIntOrDefault(env[key := ""], key, 0, p.atoi) == GetEnvIntOrDefault(env - {key}, key, 0, p.atoi)
    ensures GetDurationOrDefault(env[key := ""], key, 0, p.parseDuration) == GetDurationOrDefault(env - {key}, key, 0, p.parseDuration)
  {
  }

  /** Validate looks at the two hosts, the worker count and the batch size
      only: ports, databases, pool sizes, retries, delays and logging never
      change its verdict. */
  lemma ValidateReadsOnlyHostsWorkersBatch(c: Config, d: Config)
    requires c.source.host == d.source.host && c.destination.host == d.destination.host
    requires c.migration.workers == d.migration.workers && c.migration.batchSize == d.migration.batchSize
    ensures Validate(c) == Validate(d)
  {
  }

  /** With no variable set, every setting takes its default and the record is accepted. */
  lemma LoadDefaults(p: Parsers)
    ensures var r := Load(map[], p);
            && r.config.source == KeyDBConfig("localhost", 6379, "", 0, 20)
            && r.config.destination == KeyDBConfig("localhost", 6379, "", 0, 20)
            && r.config.migration == MigrationConfig(1000, 10, 30 * Minute, 3, Second)
            && r.config.logging == LoggingConfig("info", "json")
            && r.err == Pass
  {
  }

  /** The host defaults are non-empty, so a loaded record always has both
      hosts, and Load rejects it only for the worker count or the batch size. */
  lemma LoadRejectsOnlyCounts(env: Env, p: Parsers)
    ensures Load(env, p).config.source.host != "" && Load(env, p).config.destination.host != ""
    ensures Load(env, p).err.Pass? <==> Load(env, p).config.migration.workers > 0 && Load(env, p).config.migration.batchSize > 0
    ensures Load(env, p).err.Fail? ==> Load(env, p).err.error in {NonPositiveWorkers, NonPositiveBatchSize}
  {
  }
}
