/** The crawler's configuration file: defaults for the fields the file
    leaves zero, and validation of the mandatory ones. Reading the file
    and decoding its TOML are a parameter: the decoded configuration, or
    the reason it could not be obtained. */
module Config {
  import opened Wrappers

  const DefaultListenAddr: string := "0.0.0.0:27758"
  const DefaultCrawlInterval: nat := 15
  const DefaultRecheckInterval: nat := 3600
  const DefaultReseedSize: nat := 100

  /** The crawler's configuration. The `uint` fields are naturals. */
  datatype Config = Config(
    path: string,
    dataDir: string,
    listenAddr: string,
    seeds: seq<string>,
    reseedSize: nat,
    ipStackKey: string,
    crawlInterval: nat,
    recheckInterval: nat)

  /** The zero value of a Go `Config`. */
  const ZeroConfig: Config := Config("", "", "", [], 0, "", 0, 0)

  datatype ConfigError =
    | EmptyConfigPath
    | ReadFailed
    | DecodeFailed
    | Invalid

  /** `filepath.Join(home, ".tmcrawl")`, for a home directory that has no
      trailing separator. */
  function DefaultDataDir(home: string): (d: string)
    ensures d != ""
  {
    if home == "" then ".tmcrawl" else home + "/.tmcrawl"
  }

  /** `Validate`: both the seed list and the ipstack key are required and
      must be non-empty. */
  function Validate(c: Config): (err: Option<ConfigError>)
    ensures err.None? <==> |c.seeds| >= 1 && c.ipStackKey != ""
    ensures err.Some? ==> err.value == Invalid
  {
    if |c.seeds| == 0 || c.ipStackKey == "" then Some(Invalid) else None
  }

  /** Every field left zero takes its default: after it no defaulted
      field is zero, a non-zero field is kept, and the other fields are
      untouched. */
  function WithDefaults(c: Config, home: string): (d: Config)
    ensures d.listenAddr != "" && d.reseedSize != 0 && d.crawlInterval != 0
    ensures d.recheckInterval != 0 && d.dataDir != ""
    ensures c.listenAddr != "" ==> d.listenAddr == c.listenAddr
    ensures c.reseedSize != 0 ==> d.reseedSize == c.reseedSize
    ensures c.crawlInterval != 0 ==> d.crawlInterval == c.crawlInterval
    ensures c.recheckInterval != 0 ==> d.recheckInterval == c.recheckInterval
    ensures c.dataDir != "" ==> d.dataDir == c.dataDir
    ensures d.path == c.path && d.seeds == c.seeds && d.ipStackKey == c.ipStackKey
  {
    c.(listenAddr := if c.listenAddr == "" then DefaultListenAddr else c.listenAddr,
       reseedSize := if c.reseedSize == 0 then DefaultReseedSize else c.reseedSize,
       crawlInterval := if c.crawlInterval == 0 then DefaultCrawlInterval else c.crawlInterval,
       recheckInterval := if c.recheckInterval == 0 then DefaultRecheckInterval else c.recheckInterval,
       dataDir := if c.dataDir == "" then DefaultDataDir(home) else c.dataDir)
  }

  /** Applying the defaults twice is applying them once. */
  lemma WithDefaultsIdempotent(c: Config, home: string)
    ensures WithDefaults(WithDefaults(c, home), home) == WithDefaults(c, home)
  {
  }

  /** The decoded file of the test configuration gets every default. */
  lemma DefaultsExample(home: string)
    ensures var d := WithDefaults(Config("", "", "", ["http://seed1:26657", "http://seed2:26657"], 0, "testkey", 0, 0), home);
      && d.listenAddr == DefaultListenAddr && d.reseedSize == DefaultReseedSize
      && d.crawlInterval == DefaultCrawlInterval && d.recheckInterval == DefaultRecheckInterval
      && d.dataDir == DefaultDataDir(home) && Validate(d).None?
  {
  }

  /** `ParseConfig`: an empty path fails before anything is read, a read
      or decode failure returns the zero configuration, and otherwise the
      defaulted configuration is returned with its validation result. */
  method ParseConfig(configPath: string, decoded: Result<Config, ConfigError>, home: string)
    returns (cfg: Config, err: Option<ConfigError>)
    requires decoded.Err? ==> decoded.error == ReadFailed || decoded.error == DecodeFailed
    ensures configPath == "" ==> cfg == ZeroConfig && err == Some(EmptyConfigPath)
    ensures configPath != "" && decoded.Err? ==> cfg == ZeroConfig && err == Some(decoded.error)
    ensures configPath != "" && decoded.Ok? ==> cfg == WithDefaults(decoded.value, home) && err == Validate(cfg)
  {
    cfg := ZeroConfig;
    if configPath == "" {
      return cfg, Some(EmptyConfigPath);
    }
    if decoded.Err? {
      return cfg, Some(decoded.error);
    }
    cfg := decoded.value;
    if cfg.listenAddr == "" {
      cfg := cfg.(listenAddr := DefaultListenAddr);
    }
    if cfg.reseedSize == 0 {
      cfg := cfg.(reseedSize := DefaultReseedSize);
    }
    if cfg.crawlInterval == 0 {
      cfg := cfg.(crawlInterval := DefaultCrawlInterval);
    }
    if cfg.recheckInterval == 0 {
      cfg := cfg.(recheckInterval := DefaultRecheckInterval);
    }
    if cfg.dataDir == "" {
      cfg := cfg.(dataDir := DefaultDataDir(home));
    }
    err := Validate(cfg);
  }
}
