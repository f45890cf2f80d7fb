/** The JDBC connection URLs the data source hands to its pool, and a parser that
    reads back what such a URL names. */
module ConnectionPath {
  import opened JavaLang
  import opened JavaSplit
  import opened Decimal

  /** `SshDataSource.Type`: the supported database engines. */
  datatype Type = MySql | MsSql | Oracle | PostgreSql

  /** Every URL points at the local end of the SSH port forward. */
  const Hostpath := "localhost"

  /** `getSqlConnectionPath`: the engine-specific URL for `database` on local `port`.
      The SQL Server form carries no port: nothing follows the colon after the host. */
  function GetSqlConnectionPath(t: Type, port: Int32, database: string): (url: string)
    ensures |database| < |url| && url[|url| - |database|..] == database
    ensures HasPrefix(url, "jdbc:")
  {
    match t
    case MySql => "jdbc:mysql://" + Hostpath + ":" + IntToString(port) + "/" + database
    case MsSql => "jdbc:jtds:sqlserver://" + Hostpath + ":" + "/" + database
    case Oracle => "jdbc:oracle:thin:@" + Hostpath + ":" + IntToString(port) + ":" + database
    case PostgreSql => "jdbc:postgresql://" + Hostpath + ":" + IntToString(port) + "/" + database
  }

  /** What a connection URL names: the engine, the local port when the URL carries
      one, and the database. */
  datatype Target = Target(kind: Type, port: Option<int>, database: string)

  predicate HasPrefix(s: string, p: string) {
    |p| <= |s| && s[..|p|] == p
  }

  const MySqlPrefix := "jdbc:mysql://" + Hostpath + ":"
  const MsSqlPrefix := "jdbc:jtds:sqlserver://" + Hostpath + ":" + "/"
  const OraclePrefix := "jdbc:oracle:thin:@" + Hostpath + ":"
  const PostgreSqlPrefix := "jdbc:postgresql://" + Hostpath + ":"

  /** Reads `<port><sep><database>`: the port is the decimal number before the
      first `sep`, the database is everything after it. */
  function ParsePortAndDatabase(kind: Type, rest: string, sep: char): Option<Target>
  {
    var i := IndexOf(rest, sep);
    if i == -1 then None
    else
      match ParseInt(rest[..i])
      case None => None
      case Some(p) => Some(Target(kind, Some(p), rest[i + 1..]))
  }

  /** The target a local connection URL names, or `None` for any other string. */
  function ParseConnectionPath(url: string): Option<Target>
  {
    if HasPrefix(url, MsSqlPrefix) then
      Some(Target(MsSql, None, url[|MsSqlPrefix|..]))
    else if HasPrefix(url, MySqlPrefix) then
      ParsePortAndDatabase(MySql, url[|MySqlPrefix|..], '/')
    else if HasPrefix(url, OraclePrefix) then
      ParsePortAndDatabase(Oracle, url[|OraclePrefix|..], ':')
    else if HasPrefix(url, PostgreSqlPrefix) then
      ParsePortAndDatabase(PostgreSql, url[|PostgreSqlPrefix|..], '/')
    else None
  }

  /** The port of a URL for engine `t`: absent for SQL Server, `port` otherwise. */
  function UrlPort(t: Type, port: int): Option<int> {
    if t == MsSql then None else Some(port)
  }

  lemma {:induction false} ParsePortAndDatabaseOf(kind: Type, port: int, sep: char, database: string)
    requires sep != '-' && !IsDigit(sep)
    ensures ParsePortAndDatabase(kind, IntToString(port) + [sep] + database, sep)
         == Some(Target(kind, Some(port), database))
  {
    var digits := IntToString(port);
    assert sep !in digits;
    FirstSeparator(digits, database, sep);
    ParseIntToString(port);
  }

  lemma PrefixOf(p: string, rest: string)
    ensures HasPrefix(p + rest, p) && (p + rest)[|p|..] == rest
  {
    assert (p + rest)[..|p|] == p;
  }

  /** The four prefixes differ at their sixth character, so a URL has at most one. */
  lemma OnlyPrefix(p: string, rest: string, q: string)
    requires 5 < |p| && 5 < |q| && p[5] != q[5]
    ensures !HasPrefix(p + rest, q)
  {
    assert (p + rest)[5] == p[5];
  }

  /** Regroups a built URL as prefix plus remainder, the split the parser reads it by. */
  lemma Regroup(prefix: string, digits: string, sep: string, database: string)
    ensures prefix + digits + sep + database == prefix + (digits + sep + database)
  {
  }

  lemma MsSqlRoundTrip(port: Int32, database: string)
    ensures ParseConnectionPath(GetSqlConnectionPath(MsSql, port, database))
         == Some(Target(MsSql, None, database))
  {
    PrefixOf(MsSqlPrefix, database);
  }

  lemma MySqlRoundTrip(port: Int32, database: string)
    ensures ParseConnectionPath(GetSqlConnectionPath(MySql, port, database))
         == Some(Target(MySql, Some(port as int), database))
  {
    var rest := IntToString(port) + "/" + database;
    Regroup(MySqlPrefix, IntToString(port), "/", database);
    OnlyPrefix(MySqlPrefix, rest, MsSqlPrefix);
    PrefixOf(MySqlPrefix, rest);
    ParsePortAndDatabaseOf(MySql, port, '/', database);
  }

  lemma OracleRoundTrip(port: Int32, database: string)
    ensures ParseConnectionPath(GetSqlConnectionPath(Oracle, port, database))
         == Some(Target(Oracle, Some(port as int), database))
  {
    var rest := IntToString(port) + ":" + database;
    Regroup(OraclePrefix, IntToString(port), ":", database);
    OnlyPrefix(OraclePrefix, rest, MsSqlPrefix);
    OnlyPrefix(OraclePrefix, rest, MySqlPrefix);
    PrefixOf(OraclePrefix, rest);
    ParsePortAndDatabaseOf(Oracle, port, ':', database);
  }

  lemma PostgreSqlRoundTrip(port: Int32, database: string)
    ensures ParseConnectionPath(GetSqlConnectionPath(PostgreSql, port, database))
         == Some(Target(PostgreSql, Some(port as int), database))
  {
    var rest := IntToString(port) + "/" + database;
    Regroup(PostgreSqlPrefix, IntToString(port), "/", database);
    OnlyPrefix(PostgreSqlPrefix, rest, MsSqlPrefix);
    OnlyPrefix(PostgreSqlPrefix, rest, MySqlPrefix);
    OnlyPrefix(PostgreSqlPrefix, rest, OraclePrefix);
    PrefixOf(PostgreSqlPrefix, rest);
    ParsePortAndDatabaseOf(PostgreSql, port, '/', database);
  }

  /** Reading a built URL back gives the engine, the database and (except for
      SQL Server) the port it was built from. */
  lemma ParseGetSqlConnectionPath(t: Type, port: Int32, database: string)
    ensures ParseConnectionPath(GetSqlConnectionPath(t, port, database))
         == Some(Target(t, UrlPort(t, port), database))
  {
    match t
    case MsSql => MsSqlRoundTrip(port, database);
    case MySql => MySqlRoundTrip(port, database);
    case Oracle => OracleRoundTrip(port, database);
    case PostgreSql => PostgreSqlRoundTrip(port, database);
  }

  /** A URL determines the engine and database it was built for, and the port for
      every engine but SQL Server. */
  lemma ConnectionPathDeterminesTarget(t1: Type, port1: Int32, db1: string,
                                       t2: Type, port2: Int32, db2: string)
    requires GetSqlConnectionPath(t1, port1, db1) == GetSqlConnectionPath(t2, port2, db2)
    ensures t1 == t2 && db1 == db2
    ensures t1 != MsSql ==> port1 == port2
  {
    ParseGetSqlConnectionPath(t1, port1, db1);
    ParseGetSqlConnectionPath(t2, port2, db2);
  }

  /** The SQL Server URL ignores the port: any two ports give the same string. */
  lemma MsSqlIgnoresPort(port1: Int32, port2: Int32, database: string)
    ensures GetSqlConnectionPath(MsSql, port1, database) == GetSqlConnectionPath(MsSql, port2, database)
  {
  }

  /** With an empty database name, the MySQL, SQL Server and PostgreSQL URLs end in
      a slash with nothing after it, and the Oracle URL ends in a colon. */
  lemma EmptyDatabaseEndsUrl(t: Type, port: Int32)
    ensures var url := GetSqlConnectionPath(t, port, "");
      url[|url| - 1] == (if t == Oracle then ':' else '/')
  {
  }
}
