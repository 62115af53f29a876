/**
 * The backend's settings (backend/app/config.py), read from the process environment, which is a map here;
 * and the CORS origins the application derives from them (backend/main.py). Reading a `.env` file into the
 * environment happens before and is not modelled.
 */
module Config {
  import opened Wrappers
  import opened Text

  type Env = map<string, string>

  /** What `get_settings` raises: a required variable unset, or an integer variable `int()` rejects. */
  datatype ConfigError = MissingVariable(key: string) | InvalidInteger(key: string, raw: string)

  /** `_env`: the variable, else the default; unset and required is an error; `None` becomes "" (`value or ""`). */
  function EnvValue(env: Env, key: string, default: Option<string>, required: bool): (r: Result<string, ConfigError>)
    ensures r.Err? <==> key !in env && default.None? && required
    ensures r.Err? ==> r.error == MissingVariable(key)
    ensures r.Ok? && key in env ==> r.value == env[key]
    ensures r.Ok? && key !in env ==> r.value == default.GetOr("")
  {
    var value := if key in env then Some(env[key]) else default;
    if value.None? && required then Err(MissingVariable(key))
    else Ok(value.GetOr(""))
  }

  /** `_env(key, default)` for a variable that has a default, which cannot fail. */
  function EnvOr(env: Env, key: string, default: string): (r: string)
    ensures r == if key in env then env[key] else default
  {
    EnvValue(env, key, Some(default), false).value
  }

  /** `_int_env`: `int(raw)` when the variable is set (where `int` may reject it), else the default. */
  function IntEnv(env: Env, key: string, default: int): (r: Result<int, ConfigError>)
    ensures key !in env ==> r == Ok(default)
    ensures key in env ==> (r.Ok? <==> PyParseInt(env[key], 10).Some?)
    ensures key in env && r.Ok? ==> Some(r.value) == PyParseInt(env[key], 10)
    ensures r.Err? ==> r.error == InvalidInteger(key, env[key])
  {
    if key !in env then Ok(default)
    else match PyParseInt(env[key], 10)
      case Some(v) => Ok(v)
      case None => Err(InvalidInteger(key, env[key]))
  }

  /** `[item.strip() for item in parts if item.strip()]`. */
  function NonBlankItems(parts: seq<string>): (r: seq<string>)
    ensures |r| <= |parts|
    ensures forall i :: 0 <= i < |r| ==> r[i] != []
  {
    if parts == [] then []
    else (if PyStrip(parts[0]) != [] then [PyStrip(parts[0])] else []) + NonBlankItems(parts[1..])
  }

  /** A character no piece contains is in no item the filter keeps. */
  lemma {:induction false} NonBlankItemsAvoid(parts: seq<string>, c: char)
    requires forall j :: 0 <= j < |parts| ==> c !in parts[j]
    ensures forall i :: 0 <= i < |NonBlankItems(parts)| ==> c !in NonBlankItems(parts)[i]
    decreases |parts|
  {
    if parts != [] {
      var rest := parts[1..];
      assert forall j :: 0 <= j < |rest| ==> rest[j] == parts[j + 1];
      NonBlankItemsAvoid(rest, c);
      StripInfix(parts[0], IsPyWhitespace, c);
    }
  }

  /**
   * `_list_env`: unset, or blank once stripped, gives the default; a lone `*` gives `["*"]`; anything else the
   * non-blank stripped pieces between commas.
   */
  function ListEnv(env: Env, key: string, default: seq<string>): (r: seq<string>)
    ensures key !in env || PyStrip(env[key]) == [] ==> r == default
    ensures key in env && PyStrip(env[key]) == "*" ==> r == ["*"]
    ensures key in env && PyStrip(env[key]) != [] && PyStrip(env[key]) != "*" ==>
      (forall i :: 0 <= i < |r| ==> r[i] != [] && ',' !in r[i])
  {
    if key !in env then default
    else
      var raw := PyStrip(env[key]);
      if raw == [] then default
      else if raw == "*" then ["*"]
      else
        var r := NonBlankItems(Split(raw, ','));
        NonBlankItemsAvoid(Split(raw, ','), ',');
        r
  }

  /** A character absent from a string is absent from its stripped form. */
  lemma StripInfix(s: string, ws: char -> bool, c: char)
    requires c !in s
    ensures c !in Strip(s, ws)
  {
    var k :| InfixAt(Strip(s, ws), s, k);
    var r := Strip(s, ws);
    forall i | 0 <= i < |r|
      ensures r[i] != c
    {
      assert r[i] == s[k + i];
    }
  }

  /** A non-blank value that stripping leaves as it is. */
  predicate CleanItem(s: string) {
    s != [] && PyStrip(s) == s
  }

  /** Items that are already stripped and non-blank pass the filter unchanged. */
  lemma {:induction false} NonBlankItemsOfClean(items: seq<string>)
    requires forall i :: 0 <= i < |items| ==> CleanItem(items[i])
    ensures NonBlankItems(items) == items
    decreases |items|
  {
    if items != [] {
      var rest := items[1..];
      assert forall i :: 0 <= i < |rest| ==> rest[i] == items[i + 1];
      NonBlankItemsOfClean(rest);
      assert CleanItem(items[0]);
      assert NonBlankItems(items) == [items[0]] + NonBlankItems(rest);
      assert items == [items[0]] + rest;
    }
  }

  /** The last character of a join is that of the last piece. */
  lemma {:induction false} JoinLast(parts: seq<string>, sep: char)
    requires |parts| >= 1 && parts[|parts| - 1] != []
    ensures Join(parts, sep) != []
    ensures Join(parts, sep)[|Join(parts, sep)| - 1] == parts[|parts| - 1][|parts[|parts| - 1]| - 1]
    decreases |parts|
  {
    if |parts| > 1 {
      JoinLast(parts[1..], sep);
    }
  }

  /** Stripped non-blank pieces joined by a comma give a stripped string. */
  lemma JoinStripped(items: seq<string>)
    requires |items| >= 1
    requires items[0] != [] && PyStrip(items[0]) == items[0]
    requires items[|items| - 1] != [] && PyStrip(items[|items| - 1]) == items[|items| - 1]
    ensures PyStrip(Join(items, ',')) == Join(items, ',')
  {
    var raw := Join(items, ',');
    JoinLast(items, ',');
    var first, last := items[0], items[|items| - 1];
    assert raw[0] == first[0];
    assert !IsPyWhitespace(first[0]) && !IsPyWhitespace(last[|last| - 1]);
    StripNoEdgeSpace(raw, IsPyWhitespace);
  }

  /**
   * A list of clean origins written comma-separated reads back as the same list: `_list_env` inverts
   * `",".join` on values that are non-blank, stripped and free of commas.
   */
  lemma ListEnvJoin(env: Env, key: string, items: seq<string>, default: seq<string>)
    requires |items| >= 1
    requires forall i :: 0 <= i < |items| ==> CleanItem(items[i]) && ',' !in items[i]
    ensures ListEnv(env[key := Join(items, ',')], key, default) == items
  {
    var raw := Join(items, ',');
    assert CleanItem(items[0]) && CleanItem(items[|items| - 1]);
    JoinStripped(items);
    SplitJoin(items, ',');
    var e := env[key := raw];
    assert key in e && e[key] == raw;
    if raw == "*" {
      assert Split(raw, ',') == [raw];
      assert ListEnv(e, key, default) == ["*"];
    } else {
      NonBlankItemsOfClean(items);
      assert ListEnv(e, key, default) == NonBlankItems(Split(raw, ','));
    }
  }

  /** A comma-only value is not blank, so it yields no origins rather than the default. */
  lemma CommasGiveNoOrigins(env: Env, key: string, default: seq<string>)
    ensures ListEnv(env[key := ","], key, default) == []
  {
    var raw := ",";
    StripNoEdgeSpace(raw, IsPyWhitespace);
    assert Split(raw[1..], ',') == [[]];
    assert Split(raw, ',') == [[], []];
    assert PyStrip([]) == [];
    assert NonBlankItems([[], []]) == [];
    var e := env[key := raw];
    assert key in e && PyStrip(e[key]) == raw;
  }

  // ---------------------------------------------------------------------------
  // Settings

  datatype Settings = Settings(
    appName: string, environment: string, databaseUrlOverride: Option<string>,
    databaseHost: string, databasePort: int, databaseName: string, databaseUser: string, databasePassword: string,
    jwtSecretKey: string, jwtAlgorithm: string, accessTokenExpireMinutes: int,
    superadminEmail: string, superadminUsername: string, superadminPassword: string,
    defaultLocale: string, defaultTheme: string, appTimezone: string, corsAllowOrigins: seq<string>,
    aboutDefaultSections: seq<(string, string)>)

  /** The default About sections, slug and Markdown body, in the dictionary's insertion order. */
  const ABOUT_DEFAULT_SECTIONS: seq<(string, string)> := [
    ("about_rabbits", "## 关于兔兔们\n\n欢迎来到小兔书。"),
    ("about_care_team", "## 关于兔兔护理队\n\n我们守护兔兔。"),
    ("about_feeding", "## 关于喂兔\n\n喂兔指南即将更新。")]

  const DEFAULT_CORS_ORIGINS: seq<string> := ["http://localhost:3000"]
  const DEFAULT_EXPIRE_MINUTES := 60 * 24
  const DEFAULT_DB_PORT := 5432

  /** The three variables `get_settings` cannot do without. */
  predicate HasRequired(env: Env) {
    "JWT_SECRET_KEY" in env && "SUPERADMIN_EMAIL" in env && "SUPERADMIN_PASSWORD" in env
  }

  /** An integer variable that is unset or that `int()` accepts. */
  predicate IntOk(env: Env, key: string) {
    key !in env || PyParseInt(env[key], 10).Some?
  }

  /**
   * `get_settings` (without its cache): each field from its variable or default, the arguments evaluated in
   * order, so the first failing variable is the one reported.
   */
  function GetSettings(env: Env): (r: Result<Settings, ConfigError>)
    ensures r.Ok? <==> HasRequired(env) && IntOk(env, "DB_PORT") && IntOk(env, "ACCESS_TOKEN_EXPIRE_MINUTES")
    ensures !IntOk(env, "DB_PORT") ==> r == Err(InvalidInteger("DB_PORT", env["DB_PORT"]))
    ensures IntOk(env, "DB_PORT") && "JWT_SECRET_KEY" !in env ==> r == Err(MissingVariable("JWT_SECRET_KEY"))
    ensures r.Ok? ==> (r.value.jwtSecretKey == env["JWT_SECRET_KEY"]
      && r.value.superadminEmail == env["SUPERADMIN_EMAIL"] && r.value.superadminPassword == env["SUPERADMIN_PASSWORD"])
    ensures r.Ok? ==> r.value.databaseUrlOverride == (if "DATABASE_URL" in env then Some(env["DATABASE_URL"]) else None)
    ensures r.Ok? ==> r.value.aboutDefaultSections == ABOUT_DEFAULT_SECTIONS
  {
    var port := IntEnv(env, "DB_PORT", DEFAULT_DB_PORT);
    var secret := EnvValue(env, "JWT_SECRET_KEY", None, true);
    var minutes := IntEnv(env, "ACCESS_TOKEN_EXPIRE_MINUTES", DEFAULT_EXPIRE_MINUTES);
    var adminEmail := EnvValue(env, "SUPERADMIN_EMAIL", None, true);
    var adminPassword := EnvValue(env, "SUPERADMIN_PASSWORD", None, true);
    if port.Err? then Err(port.error)
    else if secret.Err? then Err(secret.error)
    else if minutes.Err? then Err(minutes.error)
    else if adminEmail.Err? then Err(adminEmail.error)
    else if adminPassword.Err? then Err(adminPassword.error)
    else
      Ok(Settings(
        EnvOr(env, "APP_NAME", "小兔书 ituhouse"),
        EnvOr(env, "ENVIRONMENT", "development"),
        if "DATABASE_URL" in env then Some(env["DATABASE_URL"]) else None,
        EnvOr(env, "DB_HOST", "localhost"),
        port.value,
        EnvOr(env, "DB_NAME", "ituhouse"),
        EnvOr(env, "DB_USER", "postgres"),
        EnvOr(env, "DB_PASSWORD", "postgres"),
        secret.value,
        EnvOr(env, "JWT_ALGORITHM", "HS256"),
        minutes.value,
        adminEmail.value,
        EnvOr(env, "SUPERADMIN_USERNAME", "ituhouse-root"),
        adminPassword.value,
        EnvOr(env, "DEFAULT_LOCALE", "zh-CN"),
        EnvOr(env, "DEFAULT_THEME", "system"),
        EnvOr(env, "APP_TIMEZONE", "Asia/Shanghai"),
        ListEnv(env, "CORS_ALLOW_ORIGINS", DEFAULT_CORS_ORIGINS),
        ABOUT_DEFAULT_SECTIONS))
  }

  /** With only the required variables set, every other setting takes its default. */
  lemma DefaultSettings(secret: string, email: string, password: string)
    ensures var env := map["JWT_SECRET_KEY" := secret, "SUPERADMIN_EMAIL" := email, "SUPERADMIN_PASSWORD" := password];
      GetSettings(env) == Ok(Settings(
        "小兔书 ituhouse", "development", None, "localhost", 5432, "ituhouse", "postgres", "postgres",
        secret, "HS256", 1440, email, "ituhouse-root", password, "zh-CN", "system", "Asia/Shanghai",
        ["http://localhost:3000"], ABOUT_DEFAULT_SECTIONS))
  {
    var env := map["JWT_SECRET_KEY" := secret, "SUPERADMIN_EMAIL" := email, "SUPERADMIN_PASSWORD" := password];
    // the two unset names as long as a set one differ from it in a letter; the rest differ in length
    assert "SUPERADMIN_USERNAME" != "SUPERADMIN_PASSWORD" by {
      assert "SUPERADMIN_USERNAME"[11] != "SUPERADMIN_PASSWORD"[11];
    }
    assert "DEFAULT_LOCALE" != "JWT_SECRET_KEY" by {
      assert "DEFAULT_LOCALE"[0] != "JWT_SECRET_KEY"[0];
    }
    assert OnlyRequired(env);
    OnlyRequiredDefaults(env);
  }

  /** No variable but the three required ones is set. */
  predicate OnlyRequired(env: Env) {
    && HasRequired(env)
    && "APP_NAME" !in env && "ENVIRONMENT" !in env && "DATABASE_URL" !in env && "DB_HOST" !in env
    && "DB_PORT" !in env && "DB_NAME" !in env && "DB_USER" !in env && "DB_PASSWORD" !in env
    && "JWT_ALGORITHM" !in env && "ACCESS_TOKEN_EXPIRE_MINUTES" !in env && "SUPERADMIN_USERNAME" !in env
    && "DEFAULT_LOCALE" !in env && "DEFAULT_THEME" !in env && "APP_TIMEZONE" !in env
    && "CORS_ALLOW_ORIGINS" !in env
  }

  /** Where only the required variables are set, they are taken as given and the rest default. */
  lemma OnlyRequiredDefaults(env: Env)
    requires OnlyRequired(env)
    ensures GetSettings(env) == Ok(Settings(
        "小兔书 ituhouse", "development", None, "localhost", 5432, "ituhouse", "postgres", "postgres",
        env["JWT_SECRET_KEY"], "HS256", 1440, env["SUPERADMIN_EMAIL"], "ituhouse-root", env["SUPERADMIN_PASSWORD"],
        "zh-CN", "system", "Asia/Shanghai", ["http://localhost:3000"], ABOUT_DEFAULT_SECTIONS))
  {
    assert IntEnv(env, "DB_PORT", DEFAULT_DB_PORT) == Ok(5432);
    assert IntEnv(env, "ACCESS_TOKEN_EXPIRE_MINUTES", DEFAULT_EXPIRE_MINUTES) == Ok(1440);
    assert ListEnv(env, "CORS_ALLOW_ORIGINS", DEFAULT_CORS_ORIGINS) == DEFAULT_CORS_ORIGINS;
  }

  /** A port written in decimal is read back as that port. */
  lemma PortRoundTrip(env: Env, port: int)
    requires HasRequired(env) && IntOk(env, "ACCESS_TOKEN_EXPIRE_MINUTES")
    ensures GetSettings(env["DB_PORT" := IntToDecimal(port)]).Ok?
    ensures GetSettings(env["DB_PORT" := IntToDecimal(port)]).value.databasePort == port
  {
    ParseIntOfDecimal(port);
  }

  // ---------------------------------------------------------------------------
  // The database URL

  const DATABASE_SCHEME := "postgresql+psycopg://"

  /**
   * `Settings.database_url`: a non-empty override as given; otherwise a psycopg URL whose password is
   * `quote_plus`-encoded and whose port is written in decimal.
   */
  function DatabaseUrl(s: Settings): (url: string)
    ensures s.databaseUrlOverride.Some? && s.databaseUrlOverride.value != [] ==> url == s.databaseUrlOverride.value
    ensures !(s.databaseUrlOverride.Some? && s.databaseUrlOverride.value != []) ==>
      url == DATABASE_SCHEME + s.databaseUser + ":" + QuotePlus(s.databasePassword) + "@" + s.databaseHost + ":"
        + IntToDecimal(s.databasePort) + "/" + s.databaseName
  {
    if s.databaseUrlOverride.Some? && s.databaseUrlOverride.value != [] then s.databaseUrlOverride.value
    else
      DATABASE_SCHEME + s.databaseUser + ":" + QuotePlus(s.databasePassword)
      + "@" + s.databaseHost + ":" + IntToDecimal(s.databasePort) + "/" + s.databaseName
  }

  /** The prefix of `s` before the first `c`, or all of `s`. */
  function TakeUntil(s: string, c: char): (r: string)
    ensures |r| <= |s| && r == s[..|r|]
    ensures c !in r
  {
    if s == [] || s[0] == c then [] else [s[0]] + TakeUntil(s[1..], c)
  }

  lemma {:induction false} TakeUntilPrefix(a: string, b: string, c: char)
    requires c !in a
    ensures TakeUntil(a + [c] + b, c) == a
    decreases |a|
  {
    if a != [] {
      assert (a + [c] + b)[1..] == a[1..] + [c] + b;
      assert a[0] in a;
      assert forall x :: x in a[1..] ==> x in a;
      TakeUntilPrefix(a[1..], b, c);
      assert [a[0]] + a[1..] == a;
    }
  }

  /**
   * Without an override, whatever the password contains, the URL's password field (after the user and its
   * colon, up to the first `@`) decodes back to the password's UTF-8 bytes.
   */
  lemma PasswordRecoverable(s: Settings)
    requires !(s.databaseUrlOverride.Some? && s.databaseUrlOverride.value != [])
    ensures var prefix := DATABASE_SCHEME + s.databaseUser + ":";
      StartsWith(DatabaseUrl(s), prefix)
      && UnquotePlus(TakeUntil(DatabaseUrl(s)[|prefix|..], '@')) == Utf8(s.databasePassword)
  {
    var prefix := DATABASE_SCHEME + s.databaseUser + ":";
    var q := QuotePlus(s.databasePassword);
    var rest := s.databaseHost + ":" + IntToDecimal(s.databasePort) + "/" + s.databaseName;
    var url := DatabaseUrl(s);
    assert url == prefix + (q + "@" + rest);
    assert url[|prefix|..] == q + ['@'] + rest;
    QuotePlusIsUrlSafe(s.databasePassword);
    TakeUntilPrefix(q, rest, '@');
    UnquoteQuoteBytes(Utf8(s.databasePassword));
  }

  /**
   * The origins the CORS middleware allows (backend/main.py): the configured list, or the default when it is
   * empty, collapsed to `["*"]` when it holds `*`.
   */
  function CorsOrigins(s: Settings): (r: seq<string>)
    ensures r != []
    ensures "*" in r <==> r == ["*"]
    ensures "*" !in s.corsAllowOrigins && s.corsAllowOrigins != [] ==> r == s.corsAllowOrigins
  {
    var origins := if s.corsAllowOrigins == [] then DEFAULT_CORS_ORIGINS else s.corsAllowOrigins;
    if "*" in origins then ["*"] else origins
  }
}
