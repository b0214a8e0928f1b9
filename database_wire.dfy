/** The configuration providers: each checks the required fields of one
    section of the loaded configuration in a fixed order and, when all are
    present, copies the connection settings into a fresh struct. */
module DatabaseWire {
  import opened Wrappers

  /** The database section of the loaded configuration. */
  datatype Database = Database(host: string, port: int, dbName: string, user: string,
                               password: string, sslMode: string, timeZone: string,
                               maxIdleConns: int, maxOpenConns: int, connMaxLifetime: int)

  /** The redis section of the loaded configuration. */
  datatype Redis = Redis(addr: string, password: string, db: int, poolSize: int,
                         dialTimeout: int, readTimeout: int, writeTimeout: int)

  datatype Config = Config(database: Database, redis: Redis)

  datatype PostgreConfig = PostgreConfig(host: string, user: string, password: string,
                                         dbName: string, port: int, timeZone: string)

  datatype RedisConfig = RedisConfig(addr: string, password: string, db: int)

  const ErrNilConfig := "config is nil"
  const ErrHostEmpty := "config.database.host is empty"
  const ErrUserEmpty := "config.database.user is empty"
  const ErrDBNameEmpty := "config.database.dbname is empty"
  const ErrPortZero := "config.database.port is zero"
  const ErrTimeZoneEmpty := "config.database.timezone is empty"
  const ErrAddrEmpty := "config.redis.addr is empty"

  /** The message of the first check that fails, if any: the reference
      meaning of "checked in this order". */
  function FirstFailure(checks: seq<(bool, string)>): (m: Option<string>)
    ensures m.None? <==> forall i :: 0 <= i < |checks| ==> !checks[i].0
    ensures m.Some? ==> exists i :: && 0 <= i < |checks| && checks[i].0 && checks[i].1 == m.value
                                    && forall k :: 0 <= k < i ==> !checks[k].0
  {
    if checks == [] then None
    else if checks[0].0 then Some(checks[0].1)
    else
      var rest := FirstFailure(checks[1..]);
      assert forall i :: 1 <= i < |checks| ==> checks[i] == checks[1..][i - 1];
      if rest.Some? then
        var i :| && 0 <= i < |checks[1..]| && checks[1..][i].0 && checks[1..][i].1 == rest.value
                 && forall k :: 0 <= k < i ==> !checks[1..][k].0;
        assert checks[i + 1] == checks[1..][i];
        rest
      else rest
  }

  /** One step of the search: a passing check is skipped. */
  lemma FirstFailureStep(checks: seq<(bool, string)>)
    requires checks != []
    ensures FirstFailure(checks) == if checks[0].0 then Some(checks[0].1) else FirstFailure(checks[1..])
  {
  }

  /** The Postgres checks in the order they are made. */
  function PostgreChecks(c: Database): seq<(bool, string)> {
    [(c.host == "", ErrHostEmpty),
     (c.user == "", ErrUserEmpty),
     (c.dbName == "", ErrDBNameEmpty),
     (c.port == 0, ErrPortZero),
     (c.timeZone == "", ErrTimeZoneEmpty)]
  }

  /** ProvidePostgreConfig: a missing config is an error; otherwise the
      first failing field check decides the error; when none fails the six
      connection settings are copied unchanged, an empty password included. */
  function ProvidePostgreConfig(cfg: Option<Config>): (r: Result<PostgreConfig, string>)
    ensures cfg.None? ==> r == Err(ErrNilConfig)
    ensures cfg.Some? && r.Err? ==> FirstFailure(PostgreChecks(cfg.value.database)) == Some(r.error)
    ensures r.Ok? <==> cfg.Some? && FirstFailure(PostgreChecks(cfg.value.database)).None?
    ensures r.Ok? ==>
              var c := cfg.value.database;
              r.value == PostgreConfig(c.host, c.user, c.password, c.dbName, c.port, c.timeZone)
  {
    match cfg
    case None => Err(ErrNilConfig)
    case Some(config) =>
      var c := config.database;
      FirstFailureStep(PostgreChecks(c));
      FirstFailureStep(PostgreChecks(c)[1..]);
      FirstFailureStep(PostgreChecks(c)[2..]);
      FirstFailureStep(PostgreChecks(c)[3..]);
      FirstFailureStep(PostgreChecks(c)[4..]);
      if c.host == "" then Err(ErrHostEmpty)
      else if c.user == "" then Err(ErrUserEmpty)
      else if c.dbName == "" then Err(ErrDBNameEmpty)
      else if c.port == 0 then Err(ErrPortZero)
      else if c.timeZone == "" then Err(ErrTimeZoneEmpty)
      else Ok(PostgreConfig(c.host, c.user, c.password, c.dbName, c.port, c.timeZone))
  }

  /** ProvideRedisConfig: a missing config or an empty address is an error;
      otherwise address, password and DB are copied unchanged. */
  function ProvideRedisConfig(cfg: Option<Config>): (r: Result<RedisConfig, string>)
    ensures cfg.None? ==> r == Err(ErrNilConfig)
    ensures cfg.Some? && cfg.value.redis.addr == "" ==> r == Err(ErrAddrEmpty)
    ensures r.Ok? <==> cfg.Some? && cfg.value.redis.addr != ""
    ensures r.Ok? ==>
              var c := cfg.value.redis;
              r.value == RedisConfig(c.addr, c.password, c.db)
  {
    match cfg
    case None => Err(ErrNilConfig)
    case Some(config) =>
      var c := config.redis;
      if c.addr == "" then Err(ErrAddrEmpty)
      else Ok(RedisConfig(c.addr, c.password, c.db))
  }

  /** Both providers give the same answer for a missing config. */
  lemma NilConfigSameError()
    ensures ProvidePostgreConfig(None) == Err(ErrNilConfig)
    ensures ProvideRedisConfig(None) == Err(ErrNilConfig)
    ensures ProvidePostgreConfig(None).error == ProvideRedisConfig(None).error
  {
  }

  /** With host, user and dbname all empty, the host is reported: the first
      check wins, not the last. */
  lemma HostReportedFirst(c: Config)
    requires c.database.host == "" && c.database.user == "" && c.database.dbName == ""
    ensures ProvidePostgreConfig(Some(c)) == Err(ErrHostEmpty)
  {
  }

  /** The password is never validated: a config that is accepted
      stays accepted with any password, the empty one included, and only the
      copied password changes. */
  lemma PasswordNeverChecked(c: Config, pw: string)
    requires ProvidePostgreConfig(Some(c)).Ok?
    ensures var r := ProvidePostgreConfig(Some(c.(database := c.database.(password := pw))));
            r.Ok? && r.value == ProvidePostgreConfig(Some(c)).value.(password := pw)
  {
  }

  /** Which settings are required depends only on the address: password
      and DB may take any value, 0 and "" included. */
  lemma RedisOnlyNeedsAddr(c: Config, pw: string, db: int)
    requires c.redis.addr != ""
    ensures ProvideRedisConfig(Some(c.(redis := c.redis.(password := pw, db := db))))
              == Ok(RedisConfig(c.redis.addr, pw, db))
  {
  }

  /** The sections are independent: a broken redis section does not affect
      the Postgres provider, and the other way round. */
  lemma SectionsIndependent(c: Config, d: Database, rd: Redis)
    ensures ProvidePostgreConfig(Some(c.(redis := rd))) == ProvidePostgreConfig(Some(c))
    ensures ProvideRedisConfig(Some(c.(database := d))) == ProvideRedisConfig(Some(c))
  {
  }
}
