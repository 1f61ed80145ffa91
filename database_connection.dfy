/** Database configuration (shared/database/connection.py): the async driver URL
    derived from DATABASE_URL, the settings read from the environment, and the URL
    as `get_stats` reports it. The environment is a map from variable to value. */
module DatabaseConnection {
  import opened Common

  const DefaultUrl: string := "sqlite:///./exostack.db"
  const PostgresPrefix: string := "postgresql://"
  const PostgresAsyncPrefix: string := "postgresql+asyncpg://"
  const SqlitePrefix: string := "sqlite:///"
  const SqliteAsyncPrefix: string := "sqlite+aiosqlite:///"

  /** The async URL: the first `postgresql://` or `sqlite:///` (which, given the
      prefix test, is the prefix itself) swapped for its async driver's scheme. */
  function AsyncUrl(url: string): (r: string)
    ensures StartsWith(url, PostgresPrefix) ==> r == PostgresAsyncPrefix + url[|PostgresPrefix|..]
    ensures !StartsWith(url, PostgresPrefix) && StartsWith(url, SqlitePrefix) ==>
              r == SqliteAsyncPrefix + url[|SqlitePrefix|..]
    ensures !StartsWith(url, PostgresPrefix) && !StartsWith(url, SqlitePrefix) ==> r == url
  {
    if StartsWith(url, PostgresPrefix) then PostgresAsyncPrefix + url[|PostgresPrefix|..]
    else if StartsWith(url, SqlitePrefix) then SqliteAsyncPrefix + url[|SqlitePrefix|..]
    else url
  }

  /** An async URL is left alone, so rewriting twice is rewriting once; and the
      rewrite never moves a URL between the SQLite and the PostgreSQL engine setup. */
  lemma AsyncUrlIdempotent(url: string)
    ensures AsyncUrl(AsyncUrl(url)) == AsyncUrl(url)
    ensures StartsWith(AsyncUrl(url), "sqlite") <==> StartsWith(url, "sqlite")
  {
    var r := AsyncUrl(url);
    if StartsWith(url, PostgresPrefix) {
      assert r[..|PostgresAsyncPrefix|] == PostgresAsyncPrefix;
      assert url[..|PostgresPrefix|] == PostgresPrefix;
      assert r[10] == '+' && r[0] == 'p' && url[0] == 'p';
      assert !StartsWith(r, PostgresPrefix);
      assert !StartsWith(r, SqlitePrefix);
    } else if StartsWith(url, SqlitePrefix) {
      assert r[..|SqliteAsyncPrefix|] == SqliteAsyncPrefix;
      assert url[..|SqlitePrefix|] == SqlitePrefix;
      assert r[6] == '+' && r[0] == 's';
      assert !StartsWith(r, SqlitePrefix);
      assert !StartsWith(r, PostgresPrefix);
      assert r[..6] == "sqlite" && url[..6] == "sqlite";
    }
  }

  /** ASCII `str.lower()`. */
  function Lower(s: string): (r: string)
    ensures |r| == |s|
    ensures forall i :: 0 <= i < |s| ==> r[i] == LowerChar(s[i])
  {
    if |s| == 0 then "" else [LowerChar(s[0])] + Lower(s[1..])
  }

  function LowerChar(c: char): char
  {
    if 'A' <= c <= 'Z' then (c as int + 32) as char else c
  }

  /** `int(text)` of a pool setting: Python's integer parse, whose ValueError is an
      error here. */
  function ParseSetting(s: string): Result<int>
  {
    match ParseInt(s)
    case Some(v) => Ok(v)
    case None => Err("ValueError")
  }

  lemma ParseSettingDigits(s: string)
    requires AllDigits(s) && |s| > 0
    ensures ParseSetting(s) == Ok(DigitsValue(s))
  {
    assert IsDigit(s[0]) && IsDigit(s[|s| - 1]);
    StripTrimmed(s);
  }

  lemma ParseSettingShown(i: int)
    ensures ParseSetting(ShowInt(i)) == Ok(i)
  {
    ParseShowInt(i);
  }

  /** A run of digits reads as its decimal value, a blank setting is an error, and
      every integer as Python writes it reads back as itself. */
  lemma ParseSettingFacts(s: string)
    ensures AllDigits(s) && |s| > 0 ==> ParseSetting(s) == Ok(DigitsValue(s))
    ensures |Strip(s)| == 0 ==> ParseSetting(s).Err?
    ensures forall i: int {:trigger ShowInt(i)} :: s == ShowInt(i) ==> ParseSetting(s) == Ok(i)
  {
    if |s| > 0 && AllDigits(s) {
      ParseSettingDigits(s);
    }
    forall i: int | s == ShowInt(i) ensures ParseSetting(s) == Ok(i) {
      ParseSettingShown(i);
    }
  }

  function Getenv(env: map<string, string>, key: string, default: string): string
  {
    if key in env then env[key] else default
  }

  datatype DatabaseConfig = DatabaseConfig(
    databaseUrl: string,
    asyncDatabaseUrl: string,
    echo: bool,
    poolSize: int,
    maxOverflow: int)

  /** `DatabaseConfig()`: the URL (SQLite by default), its async form, echo when the
      variable reads "true" in any case, and the pool settings; a pool setting that
      is not an integer raises. */
  function Configure(env: map<string, string>): (r: Result<DatabaseConfig>)
  {
    var url := Getenv(env, "DATABASE_URL", DefaultUrl);
    var pool := ParseSetting(Getenv(env, "DATABASE_POOL_SIZE", "10"));
    var overflow := ParseSetting(Getenv(env, "DATABASE_MAX_OVERFLOW", "20"));
    if pool.Err? then Err(pool.msg)
    else if overflow.Err? then Err(overflow.msg)
    else Ok(DatabaseConfig(url, AsyncUrl(url), Lower(Getenv(env, "DATABASE_ECHO", "false")) == "true",
                           pool.value, overflow.value))
  }

  lemma DefaultPoolSettingsParse()
    ensures ParseSetting("10") == Ok(10) && ParseSetting("20") == Ok(20)
  {
    assert AllDigits("10") && AllDigits("20");
    assert DigitsValue("10") == 10 by {
      assert "10"[..1] == "1";
      assert DigitsValue("1") == 1;
    }
    assert DigitsValue("20") == 20 by {
      assert "20"[..1] == "2";
      assert DigitsValue("2") == 2;
    }
  }

  lemma DefaultAsyncUrl()
    ensures AsyncUrl(DefaultUrl) == "sqlite+aiosqlite:///./exostack.db"
  {
    assert DefaultUrl[..|SqlitePrefix|] == SqlitePrefix;
    assert DefaultUrl[|SqlitePrefix|..] == "./exostack.db";
    assert !StartsWith(DefaultUrl, PostgresPrefix) by { assert DefaultUrl[0] == 's'; }
  }

  /** With nothing set the configuration is a local SQLite file through aiosqlite,
      no echo, and a pool of 10 with 20 overflow. */
  lemma ConfigureEmpty()
    ensures Configure(map[]) == Ok(DatabaseConfig(DefaultUrl, "sqlite+aiosqlite:///./exostack.db", false, 10, 20))
  {
    DefaultPoolSettingsParse();
    DefaultAsyncUrl();
    assert Lower("false") != "true" by { assert Lower("false")[0] == 'f'; }
  }

  /** Echo follows the variable exactly when it spells "true" in some mix of cases,
      and the async URL is always the rewrite of the URL. */
  lemma ConfigureDefaults(env: map<string, string>)
    ensures env == map[] ==>
              Configure(env) == Ok(DatabaseConfig(DefaultUrl, "sqlite+aiosqlite:///./exostack.db", false, 10, 20))
    ensures Configure(env).Ok? && "DATABASE_ECHO" in env ==>
              (Configure(env).value.echo <==> |env["DATABASE_ECHO"]| == 4 && Lower(env["DATABASE_ECHO"]) == "true")
    ensures Configure(env).Ok? ==> Configure(env).value.asyncDatabaseUrl == AsyncUrl(Configure(env).value.databaseUrl)
  {
    if env == map[] {
      ConfigureEmpty();
    }
  }

  /** The text after the last `c`, or all of `s` when there is none. */
  function AfterLast(s: string, c: char): (r: string)
    ensures c !in r
    ensures |r| <= |s| && r == s[|s| - |r|..]
    ensures c in s ==> |r| < |s| && s[|s| - |r| - 1] == c
    ensures c !in s ==> r == s
  {
    if |s| == 0 then s
    else if s[|s| - 1] == c then ""
    else
      var init := s[..|s| - 1];
      var r := AfterLast(init, c) + [s[|s| - 1]];
      assert forall x :: x in s <==> x in init || x == s[|s| - 1];
      r
  }

  /** The URL `get_stats` reports: what follows the last '@' (so the credentials
      before it are hidden), or the whole URL when there is no '@'. */
  function ReportedUrl(url: string): (r: string)
    ensures '@' !in r
    ensures '@' in url ==> exists k :: 0 <= k < |url| && url[k] == '@' && r == url[k + 1..]
    ensures '@' !in url ==> r == url
  {
    var r := AfterLast(url, '@');
    if '@' in url then
      assert url[|url| - |r| - 1] == '@' && r == url[|url| - |r|..];
      r
    else r
  }

  /** `engine_type` in `get_stats`. */
  function EngineType(url: string): (r: string)
    ensures r == "postgresql" <==> Contains(url, "postgresql")
    ensures r == "postgresql" || r == "sqlite"
  {
    if Contains(url, "postgresql") then "postgresql" else "sqlite"
  }

  /** A PostgreSQL URL reports the postgresql engine, and the SQLite engine options
      are chosen exactly for URLs that start with "sqlite". */
  lemma PostgresUrlIsPostgres(url: string)
    requires StartsWith(url, PostgresPrefix)
    ensures EngineType(url) == "postgresql"
    ensures !StartsWith(url, "sqlite")
  {
    assert url[..|PostgresPrefix|] == PostgresPrefix;
    assert url[0..][..|"postgresql"|] == "postgresql";
    assert url[0] == 'p';
  }
}
