/** The connection settings of database/db.go and the data-source string
    `OpenConnection` builds from them for each supported backend. Each
    string is written as its fields joined by a separator, and a lemma per
    backend shows that this is the text the source's format string gives.
    The parse functions read the fields back; the round-trip lemmas show
    that the string determines the settings when the fields hold no
    separator. */
module DataSourceNames {
  import opened Wrappers
  import opened Strings
  import opened Decimal

  const MySql := "mysql"
  const Postgres := "postgres"
  const SqlServer := "sqlserver"

  datatype DBConfig = DBConfig(dbType: string, host: string, port: int,
                               user: string, password: string, dbName: string)

  /** The driver to open and the string to open it with. */
  datatype Target = Target(driver: string, dsn: string)

  predicate Supported(dbType: string) {
    dbType == MySql || dbType == Postgres || dbType == SqlServer
  }

  /** `user:password@tcp(host:port)/dbname` */
  function MySqlDsn(c: DBConfig): string {
    Join([c.user, c.password + "@tcp(" + c.host, FormatInt(c.port) + ")/" + c.dbName], ":")
  }

  /** `host=… port=… user=… password=… dbname=… sslmode=disable` */
  function PostgresDsn(c: DBConfig): string {
    Join(["host=" + c.host, "port=" + FormatInt(c.port), "user=" + c.user,
          "password=" + c.password, "dbname=" + c.dbName, "sslmode=disable"], " ")
  }

  /** `server=…;user id=…;password=…;port=…;database=…;` */
  function SqlServerDsn(c: DBConfig): string {
    Join(["server=" + c.host, "user id=" + c.user, "password=" + c.password,
          "port=" + FormatInt(c.port), "database=" + c.dbName, ""], ";")
  }

  /** The switch over the backend type in `OpenConnection`: the driver name
      and data-source string for a supported type, the error otherwise. */
  function DataSource(c: DBConfig): (r: Result<Target>)
    ensures r.Ok? <==> Supported(c.dbType)
    ensures r.Ok? ==> r.value.driver == c.dbType
    ensures r.Err? ==> r.msg == "unsupported database type: " + c.dbType
  {
    if c.dbType == MySql then Ok(Target(MySql, MySqlDsn(c)))
    else if c.dbType == Postgres then Ok(Target(Postgres, PostgresDsn(c)))
    else if c.dbType == SqlServer then Ok(Target(SqlServer, SqlServerDsn(c)))
    else Err("unsupported database type: " + c.dbType)
  }

  // ---------------------------------------------------------------------
  // The strings as the source's format strings write them

  lemma JoinCons(a: string, rest: seq<string>, sep: string)
    requires |rest| >= 1
    ensures Join([a] + rest, sep) == a + sep + Join(rest, sep)
  {
    assert ([a] + rest)[1..] == rest;
  }

  lemma {:induction false} JoinThree(a: string, b: string, c: string, sep: string)
    ensures Join([a, b, c], sep) == a + sep + b + sep + c
  {
    JoinCons(b, [c], sep);
    assert [b, c] == [b] + [c];
    JoinCons(a, [b, c], sep);
    assert [a, b, c] == [a] + [b, c];
  }

  lemma {:induction false} JoinSix(a: string, b: string, c: string, d: string, e: string, f: string,
                                   sep: string)
    ensures Join([a, b, c, d, e, f], sep) == a + sep + b + sep + c + sep + d + sep + e + sep + f
  {
    JoinThree(d, e, f, sep);
    JoinCons(c, [d, e, f], sep);
    assert [c, d, e, f] == [c] + [d, e, f];
    JoinCons(b, [c, d, e, f], sep);
    assert [b, c, d, e, f] == [b] + [c, d, e, f];
    JoinCons(a, [b, c, d, e, f], sep);
    assert [a, b, c, d, e, f] == [a] + [b, c, d, e, f];
  }

  /** Moving a separator into the literal that follows it. */
  lemma Glue(x: string, sep: string, lit: string, y: string)
    ensures x + sep + (lit + y) == x + (sep + lit) + y
  {
  }

  /** The MySQL string is `%s:%s@tcp(%s:%d)/%s` of user, password, host,
      port and database name. */
  lemma MySqlDsnText(c: DBConfig)
    ensures MySqlDsn(c) == c.user + ":" + c.password + "@tcp(" + c.host + ":" + FormatInt(c.port)
                           + ")/" + c.dbName
  {
    var a := c.user + ":" + c.password + "@tcp(" + c.host;
    JoinThree(c.user, c.password + "@tcp(" + c.host, FormatInt(c.port) + ")/" + c.dbName, ":");
    AppendAssoc(c.user + ":", c.password + "@tcp(", c.host);
    AppendAssoc(c.user + ":", c.password, "@tcp(");
    AppendAssoc(a + ":", FormatInt(c.port) + ")/", c.dbName);
    AppendAssoc(a + ":", FormatInt(c.port), ")/");
  }

  /** The PostgreSQL string is
      `host=%s port=%d user=%s password=%s dbname=%s sslmode=disable`. */
  lemma PostgresDsnText(c: DBConfig)
    ensures PostgresDsn(c) == "host=" + c.host + " port=" + FormatInt(c.port) + " user=" + c.user
                              + " password=" + c.password + " dbname=" + c.dbName
                              + " sslmode=disable"
  {
    var p := FormatInt(c.port);
    JoinSix("host=" + c.host, "port=" + p, "user=" + c.user,
            "password=" + c.password, "dbname=" + c.dbName, "sslmode=disable", " ");
    var x1 := "host=" + c.host;
    Glue(x1, " ", "port=", p);
    assert " " + "port=" == " port=";
    var x2 := x1 + " port=" + p;
    Glue(x2, " ", "user=", c.user);
    assert " " + "user=" == " user=";
    var x3 := x2 + " user=" + c.user;
    Glue(x3, " ", "password=", c.password);
    assert " " + "password=" == " password=";
    var x4 := x3 + " password=" + c.password;
    Glue(x4, " ", "dbname=", c.dbName);
    assert " " + "dbname=" == " dbname=";
    var x5 := x4 + " dbname=" + c.dbName;
    AppendAssoc(x5, " ", "sslmode=disable");
    assert " " + "sslmode=disable" == " sslmode=disable";
  }

  /** The SQL Server string is
      `server=%s;user id=%s;password=%s;port=%d;database=%s;`. */
  lemma SqlServerDsnText(c: DBConfig)
    ensures SqlServerDsn(c) == "server=" + c.host + ";user id=" + c.user + ";password=" + c.password
                               + ";port=" + FormatInt(c.port) + ";database=" + c.dbName + ";"
  {
    var p := FormatInt(c.port);
    JoinSix("server=" + c.host, "user id=" + c.user, "password=" + c.password,
            "port=" + p, "database=" + c.dbName, "", ";");
    var x1 := "server=" + c.host;
    Glue(x1, ";", "user id=", c.user);
    assert ";" + "user id=" == ";user id=";
    var x2 := x1 + ";user id=" + c.user;
    Glue(x2, ";", "password=", c.password);
    assert ";" + "password=" == ";password=";
    var x3 := x2 + ";password=" + c.password;
    Glue(x3, ";", "port=", p);
    assert ";" + "port=" == ";port=";
    var x4 := x3 + ";port=" + p;
    Glue(x4, ";", "database=", c.dbName);
    assert ";" + "database=" == ";database=";
    var x5 := x4 + ";database=" + c.dbName;
    assert x5 + ";" + "" == x5 + ";";
  }

  // ---------------------------------------------------------------------
  // Reading the fields back

  /** `s` without the prefix `p`, if it has it. */
  function After(s: string, p: string): (r: Option<string>)
    ensures r.Some? <==> HasPrefix(s, p)
    ensures r.Some? ==> s == p + r.value
  {
    if HasPrefix(s, p) then Some(s[|p|..]) else None
  }

  /** `s` without the suffix `p`, if it has it. */
  function Before(s: string, p: string): (r: Option<string>)
    ensures r.Some? <==> HasSuffix(s, p)
    ensures r.Some? ==> s == r.value + p
  {
    if HasSuffix(s, p) then Some(s[..|s| - |p|]) else None
  }

  /** A decimal integer, if `s` is one. */
  function ReadInt(s: string): Option<int> {
    if |s| >= 1 && (if s[0] == '-' then AllDigits(s[1..]) else AllDigits(s))
    then Some(ParseInt(s)) else None
  }

  lemma AfterPrefix(p: string, x: string)
    ensures After(p + x, p) == Some(x)
  {
    assert (p + x)[..|p|] == p;
    assert (p + x)[|p|..] == x;
  }

  lemma BeforeSuffix(x: string, p: string)
    ensures Before(x + p, p) == Some(x)
  {
    assert (x + p)[|x|..] == p;
    assert (x + p)[..|x|] == x;
  }

  lemma ReadFormatInt(n: int)
    ensures ReadInt(FormatInt(n)) == Some(n)
  {
    ParseFormatInt(n);
  }

  predicate Free(s: string, c: char) {
    forall i :: 0 <= i < |s| ==> s[i] != c
  }

  lemma FreeAppend(a: string, b: string, c: char)
    requires Free(a, c) && Free(b, c)
    ensures Free(a + b, c)
  {
    forall i | 0 <= i < |a + b| ensures (a + b)[i] != c {
      if i >= |a| {
        assert (a + b)[i] == b[i - |a|];
      }
    }
  }

  lemma FreeOfDigits(s: string, c: char)
    requires AllDigits(s) && !IsDigit(c)
    ensures Free(s, c)
  {
  }

  lemma FreeFormatInt(n: int, c: char)
    requires !IsDigit(c) && c != '-'
    ensures Free(FormatInt(n), c)
  {
    var s := FormatInt(n);
    forall i | 0 <= i < |s| ensures s[i] != c {
      if n < 0 && i > 0 {
        assert s[i] == s[1..][i - 1];
      }
    }
  }

  /** The fields of a MySQL string: user, password and host, port and
      database name. */
  function ParseMySql(dsn: string): (r: Option<DBConfig>)
    ensures r.Some? ==> r.value.dbType == MySql
  {
    var parts := Split(dsn, ":");
    if |parts| != 3 then None
    else
      var credentials := Split(parts[1], "@");
      var address := Split(parts[2], "/");
      if |credentials| != 2 || |address| != 2 then None
      else
        var host := After(credentials[1], "tcp(");
        var portText := Before(address[0], ")");
        if host.None? || portText.None? then None
        else
          var port := ReadInt(portText.value);
          if port.None? then None
          else Some(DBConfig(MySql, host.value, port.value, parts[0], credentials[0], address[1]))
  }

  /** The fields of a PostgreSQL string. */
  function ParsePostgres(dsn: string): (r: Option<DBConfig>)
    ensures r.Some? ==> r.value.dbType == Postgres
  {
    var parts := Split(dsn, " ");
    if |parts| != 6 || parts[5] != "sslmode=disable" then None
    else
      var host := After(parts[0], "host=");
      var portText := After(parts[1], "port=");
      var user := After(parts[2], "user=");
      var password := After(parts[3], "password=");
      var dbName := After(parts[4], "dbname=");
      if host.None? || portText.None? || user.None? || password.None? || dbName.None? then None
      else
        var port := ReadInt(portText.value);
        if port.None? then None
        else Some(DBConfig(Postgres, host.value, port.value, user.value, password.value, dbName.value))
  }

  /** The fields of a SQL Server string. */
  function ParseSqlServer(dsn: string): (r: Option<DBConfig>)
    ensures r.Some? ==> r.value.dbType == SqlServer
  {
    var parts := Split(dsn, ";");
    if |parts| != 6 || parts[5] != "" then None
    else
      var host := After(parts[0], "server=");
      var user := After(parts[1], "user id=");
      var password := After(parts[2], "password=");
      var portText := After(parts[3], "port=");
      var dbName := After(parts[4], "database=");
      if host.None? || portText.None? || user.None? || password.None? || dbName.None? then None
      else
        var port := ReadInt(portText.value);
        if port.None? then None
        else Some(DBConfig(SqlServer, host.value, port.value, user.value, password.value, dbName.value))
  }

  /** The settings a data-source string of the given backend type holds. */
  function Parse(dbType: string, dsn: string): Option<DBConfig> {
    if dbType == MySql then ParseMySql(dsn)
    else if dbType == Postgres then ParsePostgres(dsn)
    else if dbType == SqlServer then ParseSqlServer(dsn)
    else None
  }

  // ---------------------------------------------------------------------
  // Round trips

  lemma MySqlSplit(c: DBConfig)
    requires Free(c.user, ':') && Free(c.password, ':') && Free(c.host, ':') && Free(c.dbName, ':')
    ensures Split(MySqlDsn(c), ":")
            == [c.user, c.password + "@tcp(" + c.host, FormatInt(c.port) + ")/" + c.dbName]
  {
    var parts := [c.user, c.password + "@tcp(" + c.host, FormatInt(c.port) + ")/" + c.dbName];
    FreeAppend(c.password, "@tcp(", ':');
    FreeAppend(c.password + "@tcp(", c.host, ':');
    FreeFormatInt(c.port, ':');
    FreeAppend(FormatInt(c.port), ")/", ':');
    FreeAppend(FormatInt(c.port) + ")/", c.dbName, ':');
    forall k, i | 0 <= k < |parts| && 0 <= i < |parts[k]| ensures parts[k][i] != ':' {
      assert Free(parts[k], ':');
    }
    SplitJoin(parts, ':');
  }

  lemma MySqlCredentials(password: string, host: string)
    requires Free(password, '@') && Free(host, '@')
    ensures Split(password + "@tcp(" + host, "@") == [password, "tcp(" + host]
  {
    var parts := [password, "tcp(" + host];
    FreeAppend("tcp(", host, '@');
    forall k, i | 0 <= k < |parts| && 0 <= i < |parts[k]| ensures parts[k][i] != '@' {
      assert Free(parts[k], '@');
    }
    SplitJoin(parts, '@');
    JoinCons(password, ["tcp(" + host], "@");
    assert password + "@" + ("tcp(" + host) == password + "@tcp(" + host;
  }

  lemma MySqlAddress(port: int, dbName: string)
    requires Free(dbName, '/')
    ensures Split(FormatInt(port) + ")/" + dbName, "/") == [FormatInt(port) + ")", dbName]
  {
    var p := FormatInt(port);
    var parts := [p + ")", dbName];
    FreeFormatInt(port, '/');
    FreeAppend(p, ")", '/');
    forall k, i | 0 <= k < |parts| && 0 <= i < |parts[k]| ensures parts[k][i] != '/' {
      assert Free(parts[k], '/');
    }
    SplitJoin(parts, '/');
    JoinCons(p + ")", [dbName], "/");
    assert p + ")" + "/" + dbName == p + ")/" + dbName;
  }

  /** The MySQL string gives its settings back when no field holds a
      colon, the password and host hold no `@` and the database name no
      slash. */
  lemma MySqlRoundTrip(c: DBConfig)
    requires c.dbType == MySql
    requires Free(c.user, ':') && Free(c.password, ':') && Free(c.host, ':') && Free(c.dbName, ':')
    requires Free(c.password, '@') && Free(c.host, '@') && Free(c.dbName, '/')
    ensures ParseMySql(MySqlDsn(c)) == Some(c)
  {
    MySqlSplit(c);
    MySqlCredentials(c.password, c.host);
    MySqlAddress(c.port, c.dbName);
    AfterPrefix("tcp(", c.host);
    BeforeSuffix(FormatInt(c.port), ")");
    ReadFormatInt(c.port);
  }

  lemma PostgresSplit(c: DBConfig)
    requires Free(c.host, ' ') && Free(c.user, ' ') && Free(c.password, ' ') && Free(c.dbName, ' ')
    ensures Split(PostgresDsn(c), " ")
            == ["host=" + c.host, "port=" + FormatInt(c.port), "user=" + c.user,
                "password=" + c.password, "dbname=" + c.dbName, "sslmode=disable"]
  {
    var parts := ["host=" + c.host, "port=" + FormatInt(c.port), "user=" + c.user,
                  "password=" + c.password, "dbname=" + c.dbName, "sslmode=disable"];
    FreeAppend("host=", c.host, ' ');
    FreeFormatInt(c.port, ' ');
    FreeAppend("port=", FormatInt(c.port), ' ');
    FreeAppend("user=", c.user, ' ');
    FreeAppend("password=", c.password, ' ');
    FreeAppend("dbname=", c.dbName, ' ');
    assert Free("sslmode=disable", ' ');
    forall k, i | 0 <= k < |parts| && 0 <= i < |parts[k]| ensures parts[k][i] != ' ' {
      assert Free(parts[k], ' ');
    }
    SplitJoin(parts, ' ');
  }

  /** The PostgreSQL string gives its settings back when no field holds a
      space. */
  lemma PostgresRoundTrip(c: DBConfig)
    requires c.dbType == Postgres
    requires Free(c.host, ' ') && Free(c.user, ' ') && Free(c.password, ' ') && Free(c.dbName, ' ')
    ensures ParsePostgres(PostgresDsn(c)) == Some(c)
  {
    PostgresSplit(c);
    AfterPrefix("host=", c.host);
    AfterPrefix("port=", FormatInt(c.port));
    AfterPrefix("user=", c.user);
    AfterPrefix("password=", c.password);
    AfterPrefix("dbname=", c.dbName);
    ReadFormatInt(c.port);
  }

  lemma SqlServerSplit(c: DBConfig)
    requires Free(c.host, ';') && Free(c.user, ';') && Free(c.password, ';') && Free(c.dbName, ';')
    ensures Split(SqlServerDsn(c), ";")
            == ["server=" + c.host, "user id=" + c.user, "password=" + c.password,
                "port=" + FormatInt(c.port), "database=" + c.dbName, ""]
  {
    var parts := ["server=" + c.host, "user id=" + c.user, "password=" + c.password,
                  "port=" + FormatInt(c.port), "database=" + c.dbName, ""];
    FreeAppend("server=", c.host, ';');
    FreeAppend("user id=", c.user, ';');
    FreeAppend("password=", c.password, ';');
    FreeFormatInt(c.port, ';');
    FreeAppend("port=", FormatInt(c.port), ';');
    FreeAppend("database=", c.dbName, ';');
    forall k, i | 0 <= k < |parts| && 0 <= i < |parts[k]| ensures parts[k][i] != ';' {
      assert Free(parts[k], ';');
    }
    SplitJoin(parts, ';');
  }

  /** The SQL Server string gives its settings back when no field holds a
      semicolon. */
  lemma SqlServerRoundTrip(c: DBConfig)
    requires c.dbType == SqlServer
    requires Free(c.host, ';') && Free(c.user, ';') && Free(c.password, ';') && Free(c.dbName, ';')
    ensures ParseSqlServer(SqlServerDsn(c)) == Some(c)
  {
    SqlServerSplit(c);
    AfterPrefix("server=", c.host);
    AfterPrefix("user id=", c.user);
    AfterPrefix("password=", c.password);
    AfterPrefix("port=", FormatInt(c.port));
    AfterPrefix("database=", c.dbName);
    ReadFormatInt(c.port);
  }

  /** The separators each backend's string uses do not occur in the
      fields. */
  predicate Separable(c: DBConfig) {
    if c.dbType == MySql then
      Free(c.user, ':') && Free(c.password, ':') && Free(c.host, ':') && Free(c.dbName, ':')
      && Free(c.password, '@') && Free(c.host, '@') && Free(c.dbName, '/')
    else if c.dbType == Postgres then
      Free(c.host, ' ') && Free(c.user, ' ') && Free(c.password, ' ') && Free(c.dbName, ' ')
    else
      Free(c.host, ';') && Free(c.user, ';') && Free(c.password, ';') && Free(c.dbName, ';')
  }

  /** The data-source string determines the settings it was built from. */
  lemma DataSourceRoundTrip(c: DBConfig)
    requires Supported(c.dbType) && Separable(c)
    ensures DataSource(c).Ok? && Parse(c.dbType, DataSource(c).value.dsn) == Some(c)
  {
    if c.dbType == MySql {
      MySqlRoundTrip(c);
    } else if c.dbType == Postgres {
      PostgresRoundTrip(c);
    } else {
      SqlServerRoundTrip(c);
    }
  }

  /** Two settings of the same supported type with the same data-source
      string are the same. */
  lemma DataSourceInjective(c1: DBConfig, c2: DBConfig)
    requires c1.dbType == c2.dbType && Supported(c1.dbType) && Separable(c1) && Separable(c2)
    requires DataSource(c1) == DataSource(c2)
    ensures c1 == c2
  {
    DataSourceRoundTrip(c1);
    DataSourceRoundTrip(c2);
  }
}
