/** `SshDataSource`: a pooled data source whose connections run through an SSH
    tunnel.  The model keeps the class's own logic: the validation of the
    `user@host` string and the SSH port on construction, the templated URL that
    `setUrl(Type, int, String)` installs, `setRemoteUrl`, and the refusal of the
    plain `setUrl(String)`.  The SSH library's calls and the pool appear only as
    the arguments the class hands them and the outcomes it receives. */
module SshDataSource {
  import opened JavaLang
  import opened JavaSplit
  import opened ConnectionPath

  const UserFormatMessage := "sshUser must be of the form user@host"
  const SshPortMessage := "invalid ssh port"
  const SetUrlMessage := "use SshDataSource.setUrl(String sqlDatabaseType, int sqlServerPort, String databaseName)"

  /** The SSH port of the constructors that take none. */
  const DefaultSshPort: Int32 := 22

  /** The database host as seen from the SSH server, until `setRemoteUrl` changes it. */
  const DefaultRemoteUrl := "localhost"

  /** The two halves of a `user@host` string. */
  datatype Credential = Credential(user: string, host: string)

  /** How the SSH session authenticates. */
  datatype Auth = Password(password: string) | PublicKey(keyFile: string)

  /** The SSH connection the data source sets up: to `host` on `port`, as `user`. */
  datatype SshConnection = SshConnection(host: string, port: Int32, user: string, auth: Auth)

  /** The object's state: its SSH connection, the database host the forward targets,
      and the URL installed in the underlying pool (`None` until one is set). */
  datatype DataSource = DataSource(sshCon: SshConnection, remoteUrl: string, url: Option<string>)

  /** A local port forward requested from the SSH connection. */
  datatype Forward = Forward(localPort: Int32, remoteHost: string, remotePort: Int32)

  /** What `setUrl(Type, int, String)` asks of the SSH connection, and the state after. */
  datatype SetUrlStep = SetUrlStep(forward: Forward, after: DataSource)

  predicate ValidSshPort(sshPort: int) {
    1 <= sshPort <= 65535
  }

  /** The credential check shared by both init paths: `sshUser.split("@")` must
      yield exactly two fields, the user and the host. */
  function ParseSshUser(sshUser: string): (r: Result<Credential>)
    ensures r.Err? ==> r.error == IllegalArgument(UserFormatMessage)
    ensures r.Ok? ==>
      && '@' !in r.value.user && '@' !in r.value.host && r.value.host != ""
      && exists n: nat :: sshUser == r.value.user + "@" + r.value.host + Repeat('@', n)
  {
    var fields := Split(sshUser, '@');
    if |fields| == 2 then
      SplitIsPair(sshUser, '@', fields[0], fields[1]);
      Ok(Credential(fields[0], fields[1]))
    else
      Err(IllegalArgument(UserFormatMessage))
  }

  /** Every string of that shape is accepted, so the contract above is exact: a
      user and a host without `@`, a non-empty host, and any number of trailing `@`. */
  lemma AcceptsUserAtHost(user: string, host: string, n: nat)
    requires '@' !in user && '@' !in host && host != ""
    ensures ParseSshUser(user + "@" + host + Repeat('@', n)) == Ok(Credential(user, host))
  {
    SplitOfPairShape('@', user, host, n);
  }

  /** The validation both `initWithPass` and `initWithKey` perform before touching
      the network: the credential first, then the port. */
  function ValidateSshTarget(sshUser: string, sshPort: Int32): (r: Result<Credential>)
    ensures r.Ok? <==> ParseSshUser(sshUser).Ok? && ValidSshPort(sshPort)
    ensures r.Ok? ==> r == ParseSshUser(sshUser)
    ensures ParseSshUser(sshUser).Err? ==> r == Err(IllegalArgument(UserFormatMessage))
    ensures ParseSshUser(sshUser).Ok? && !ValidSshPort(sshPort) ==> r == Err(IllegalArgument(SshPortMessage))
  {
    match ParseSshUser(sshUser)
    case Err(e) => Err(e)
    case Ok(cred) =>
      if sshPort < 1 || sshPort > 65535 then Err(IllegalArgument(SshPortMessage)) else Ok(cred)
  }

  /** `initWithPass`: the connection to `host:sshPort`, authenticated by password. */
  function InitWithPass(sshUser: string, sshPort: Int32, password: string): (r: Result<SshConnection>)
    ensures r.Ok? <==> ValidateSshTarget(sshUser, sshPort).Ok?
    ensures r.Err? ==> r.error == ValidateSshTarget(sshUser, sshPort).error
    ensures r.Ok? ==>
      && r.value.host == ValidateSshTarget(sshUser, sshPort).value.host
      && r.value.user == ValidateSshTarget(sshUser, sshPort).value.user
      && r.value.port == sshPort && r.value.auth == Password(password)
  {
    match ValidateSshTarget(sshUser, sshPort)
    case Err(e) => Err(e)
    case Ok(cred) => Ok(SshConnection(cred.host, sshPort, cred.user, Password(password)))
  }

  /** `initWithKey`: targets `host:sshPort` and passes the user and the key file to
      `authenticateWithPublicKey`; it never calls `connect()`. */
  function InitWithKey(sshUser: string, sshPort: Int32, key: string): (r: Result<SshConnection>)
    ensures r.Ok? <==> ValidateSshTarget(sshUser, sshPort).Ok?
    ensures r.Err? ==> r.error == ValidateSshTarget(sshUser, sshPort).error
    ensures r.Ok? ==>
      && r.value.host == ValidateSshTarget(sshUser, sshPort).value.host
      && r.value.user == ValidateSshTarget(sshUser, sshPort).value.user
      && r.value.port == sshPort && r.value.auth == PublicKey(key)
  {
    match ValidateSshTarget(sshUser, sshPort)
    case Err(e) => Err(e)
    case Ok(cred) => Ok(SshConnection(cred.host, sshPort, cred.user, PublicKey(key)))
  }

  /** Both init paths accept and reject the same inputs with the same exception,
      and target the same host and port as the same user. */
  lemma InitPathsAgree(sshUser: string, sshPort: Int32, password: string, key: string)
    ensures InitWithPass(sshUser, sshPort, password).Ok? <==> InitWithKey(sshUser, sshPort, key).Ok?
    ensures InitWithPass(sshUser, sshPort, password).Err? ==>
      InitWithPass(sshUser, sshPort, password).error == InitWithKey(sshUser, sshPort, key).error
    ensures InitWithPass(sshUser, sshPort, password).Ok? ==>
      var p := InitWithPass(sshUser, sshPort, password).value;
      var k := InitWithKey(sshUser, sshPort, key).value;
      p.host == k.host && p.user == k.user && p.port == k.port
  {
  }

  /** A freshly constructed data source around `con`. */
  function Fresh(con: SshConnection): (ds: DataSource)
    ensures ds.sshCon == con && ds.remoteUrl == "localhost" && ds.url.None?
  {
    DataSource(con, DefaultRemoteUrl, None)
  }

  function Construct(init: Result<SshConnection>): Result<DataSource> {
    match init
    case Err(e) => Err(e)
    case Ok(con) => Ok(Fresh(con))
  }

  /** `new SshDataSource(sshUser, sshPort, password)`. */
  function NewWithPasswordAndPort(sshUser: string, sshPort: Int32, password: string): (r: Result<DataSource>)
    ensures r.Ok? <==> ParseSshUser(sshUser).Ok? && ValidSshPort(sshPort)
    ensures r.Ok? ==>
      && r.value.sshCon.host == ParseSshUser(sshUser).value.host
      && r.value.sshCon.user == ParseSshUser(sshUser).value.user
      && r.value.sshCon.port == sshPort
      && r.value.sshCon.auth == Password(password)
      && r.value.remoteUrl == "localhost" && r.value.url.None?
    ensures r.Err? ==> r.error == ValidateSshTarget(sshUser, sshPort).error
  {
    Construct(InitWithPass(sshUser, sshPort, password))
  }

  /** `new SshDataSource(sshUser, password)`: port 22, so only the credential can fail. */
  function NewWithPassword(sshUser: string, password: string): (r: Result<DataSource>)
    ensures r.Ok? <==> ParseSshUser(sshUser).Ok?
    ensures r.Err? ==> r.error == IllegalArgument(UserFormatMessage)
    ensures r.Ok? ==>
      && r.value.sshCon.host == ParseSshUser(sshUser).value.host
      && r.value.sshCon.user == ParseSshUser(sshUser).value.user
      && r.value.sshCon.port == 22 && r.value.sshCon.auth == Password(password)
      && r.value.remoteUrl == "localhost" && r.value.url.None?
  {
    NewWithPasswordAndPort(sshUser, DefaultSshPort, password)
  }

  /** `new SshDataSource(sshUser, sshPort, key)`. */
  function NewWithKeyAndPort(sshUser: string, sshPort: Int32, key: string): (r: Result<DataSource>)
    ensures r.Ok? <==> ParseSshUser(sshUser).Ok? && ValidSshPort(sshPort)
    ensures r.Ok? ==>
      && r.value.sshCon.host == ParseSshUser(sshUser).value.host
      && r.value.sshCon.user == ParseSshUser(sshUser).value.user
      && r.value.sshCon.port == sshPort
      && r.value.sshCon.auth == PublicKey(key)
      && r.value.remoteUrl == "localhost" && r.value.url.None?
    ensures r.Err? ==> r.error == ValidateSshTarget(sshUser, sshPort).error
  {
    Construct(InitWithKey(sshUser, sshPort, key))
  }

  /** `new SshDataSource(sshUser, key)`: port 22, so only the credential can fail. */
  function NewWithKey(sshUser: string, key: string): (r: Result<DataSource>)
    ensures r.Ok? <==> ParseSshUser(sshUser).Ok?
    ensures r.Err? ==> r.error == IllegalArgument(UserFormatMessage)
    ensures r.Ok? ==>
      && r.value.sshCon.host == ParseSshUser(sshUser).value.host
      && r.value.sshCon.user == ParseSshUser(sshUser).value.user
      && r.value.sshCon.port == 22 && r.value.sshCon.auth == PublicKey(key)
      && r.value.remoteUrl == "localhost" && r.value.url.None?
  {
    NewWithKeyAndPort(sshUser, DefaultSshPort, key)
  }

  /** A `null` database name becomes the empty string. */
  function DatabaseName(inDatabaseName: Option<string>): string {
    match inDatabaseName
    case None => ""
    case Some(name) => name
  }

  /** `setUrl(Type, int, String)`.  `localPort` is what `getFreePort` returned and
      `forwarded` whether `createLocalPortForwarder` returned normally; when it threw
      an `IOException`, the exception is logged and the pool keeps its previous URL. */
  function SetUrl(ds: DataSource, t: Type, sqlServerPort: Int32, inDatabaseName: Option<string>,
                  localPort: Int32, forwarded: bool): (r: SetUrlStep)
    ensures r.forward == Forward(localPort, ds.remoteUrl, sqlServerPort)
    ensures r.after.sshCon == ds.sshCon && r.after.remoteUrl == ds.remoteUrl
    ensures !forwarded ==> r.after.url == ds.url
    ensures forwarded ==> r.after.url == Some(GetSqlConnectionPath(t, localPort, DatabaseName(inDatabaseName)))
    ensures forwarded ==>
      ParseConnectionPath(r.after.url.value)
        == Some(Target(t, UrlPort(t, localPort), if inDatabaseName.None? then "" else inDatabaseName.value))
  {
    var databaseName := DatabaseName(inDatabaseName);
    var forward := Forward(localPort, ds.remoteUrl, sqlServerPort);
    if forwarded then
      var sqlUrl := GetSqlConnectionPath(t, localPort, databaseName);
      ParseGetSqlConnectionPath(t, localPort, databaseName);
      SetUrlStep(forward, ds.(url := Some(sqlUrl)))
    else
      SetUrlStep(forward, ds)
  }

  /** A `null` database name and an empty one install the same URL, which for the
      MySQL, SQL Server and PostgreSQL engines ends in a slash with nothing after it. */
  lemma NullDatabaseNameIsEmpty(ds: DataSource, t: Type, sqlServerPort: Int32, localPort: Int32)
    ensures SetUrl(ds, t, sqlServerPort, None, localPort, true)
         == SetUrl(ds, t, sqlServerPort, Some(""), localPort, true)
    ensures var url := SetUrl(ds, t, sqlServerPort, None, localPort, true).after.url.value;
      t != Oracle ==> url[|url| - 1] == '/'
  {
  }

  /** `setRemoteUrl`: changes only the host the next forward targets. */
  function SetRemoteUrl(ds: DataSource, url: string): (r: DataSource)
    ensures r.remoteUrl == url
    ensures r.sshCon == ds.sshCon && r.url == ds.url
  {
    ds.(remoteUrl := url)
  }

  /** After `setRemoteUrl(host)`, `setUrl` forwards to `host`, whatever it was before. */
  lemma SetUrlForwardsToRemoteUrl(ds: DataSource, host: string, t: Type, sqlServerPort: Int32,
                                  inDatabaseName: Option<string>, localPort: Int32, forwarded: bool)
    ensures SetUrl(SetRemoteUrl(ds, host), t, sqlServerPort, inDatabaseName, localPort, forwarded).forward
         == Forward(localPort, host, sqlServerPort)
  {
  }

  /** `setUrl(String)`: always throws, whatever the URL and whatever the state. */
  function SetRawUrl(ds: DataSource, url: string): (r: Result<DataSource>)
    ensures r == Err(UnsupportedOperation(SetUrlMessage))
  {
    Err(UnsupportedOperation(SetUrlMessage))
  }

  // The documented behaviour on sample credentials.

  lemma TrailingAtIsAccepted()
    ensures ParseSshUser("user@host@") == Ok(Credential("user", "host"))
  {
    AcceptsUserAtHost("user", "host", 1);
    assert "user" + "@" + "host" + Repeat('@', 1) == "user@host@";
  }

  lemma EmptyUserIsAccepted()
    ensures ParseSshUser("@host") == Ok(Credential("", "host"))
  {
    AcceptsUserAtHost("", "host", 0);
    assert "" + "@" + "host" + Repeat('@', 0) == "@host";
  }

  /** `fields` are the pieces of `s` between its `@`s: unless exactly two remain once
      the trailing empty ones are dropped, `s` is rejected. */
  lemma RejectedByFields(s: string, fields: seq<string>)
    requires |fields| >= 2
    requires forall k :: 0 <= k < |fields| ==> '@' !in fields[k]
    requires Join(fields, '@') == s
    requires |DropTrailingEmpty(fields)| != 2
    ensures ParseSshUser(s).Err?
  {
    assert fields == [fields[0]] + fields[1..];
    JoinStep(fields[0], fields[1..], '@');
    FirstSeparator(fields[0], Join(fields[1..], '@'), '@');
    FieldsJoin(fields, '@');
  }

  lemma MissingHostIsRejected()
    ensures ParseSshUser("user@").Err?
  {
    var fields := ["user", ""];
    assert fields[1..] == [""];
    assert Join(fields, '@') == "user@";
    RejectedByFields("user@", fields);
  }

  lemma DoubleAtIsRejected()
    ensures ParseSshUser("a@@b").Err?
  {
    var fields := ["a", "", "b"];
    assert fields[1..] == ["", "b"] && fields[1..][1..] == ["b"];
    assert Join(fields, '@') == "a@@b";
    RejectedByFields("a@@b", fields);
  }

  lemma EmptyUserStringIsRejected()
    ensures ParseSshUser("").Err?
  {
    IndexOfAbsent("", '@');
  }

  lemma NoAtIsRejected()
    ensures ParseSshUser("nohost").Err?
  {
    IndexOfAbsent("nohost", '@');
  }
}
