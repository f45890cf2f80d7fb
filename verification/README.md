# SshDataSource — a Dafny model

`SshDataSource` extends a JDBC connection pool (`BasicDataSource`) so that its
connections run through an SSH tunnel. It opens an SSH session to a bastion host
and forwards a random free local port to the real database. Then it installs in
the pool a JDBC URL that points at `localhost` on that port.

The class has little logic of its own. This project models all of it except `close()`,
`getParentLogger`, `Type.toString` and logging (see "## Left out"):

- **Construction.** The four constructors and the two init paths split the
  `user@host` string with Java's `String.split("@")`. They accept it only when that
  yields exactly two fields, then check that the SSH port is in [1, 65535].
  Both checks throw `IllegalArgumentException`, and the credential is checked first.
- **`setUrl(Type, int, String)`.** A `null` database name becomes `""`. The method
  asks the SSH connection to forward the local port to `remoteUrl` on the database
  port, then installs the per-engine URL built by `getSqlConnectionPath`.
- **`setRemoteUrl`** changes the host that later forwards target.
- **`setUrl(String)`** always throws `UnsupportedOperationException`.
- **`getFreePort`** draws the candidate `(int)(1024 + Math.random() * (65535 - 1024))`
  and keeps drawing until a server socket can be bound on it.

Modules:

| file | module | contents |
|---|---|---|
| `java_lang.dfy` | `JavaLang` | `Int32` (Java `int`), `Option` (nullable reference), `Exception`, `Result` (returns or throws) |
| `java_split.dfy` | `JavaSplit` | `String.split` for a one-character literal separator with limit 0, `String.indexOf`, and join |
| `decimal.dfy` | `Decimal` | `Integer.toString`, as used by string concatenation, and a parser that inverts it |
| `connection_path.dfy` | `ConnectionPath` | the `Type` enum, `getSqlConnectionPath`, and a URL parser that inverts it |
| `ssh_data_source.dfy` | `SshDataSource` | object state, validation, constructors, `setUrl` (both), `setRemoteUrl` |
| `free_port.dfy` | `FreePort` | the candidate-port expression and the probe loop of `getFreePort` |

Java's `split` is modelled on its fast path for a single ordinary character.
That path scans with `indexOf`. If the separator does not occur, the result is the whole input, so `""` gives `[""]`.
Otherwise the input is cut at every separator and trailing empty fields are
dropped. A leading empty field is kept. Under these rules `"user@host@"` and
`"@host"` are accepted, while `"user@"`, `"a@@b"`, `""` and `"nohost"` are rejected.
`SshDataSource.ParseSshUser` states the exact accepted language: a user and a host
without `@`, a non-empty host, then any number of `@`. `SshDataSource.AcceptsUserAtHost`
proves the converse.

Two behaviours of the code are easy to miss:

- **Empty user and trailing `@`.** The code accepts an empty user (`"@host"`) and
  trailing `@` characters (`"user@host@@"` targets `host` as `user`).
- **URL templates.** The code builds `jdbc:mysql://localhost:<port>/<db>`,
  `jdbc:jtds:sqlserver://localhost:/<db>`, `jdbc:oracle:thin:@localhost:<port>:<db>`
  and `jdbc:postgresql://localhost:<port>/<db>`. The SQL Server URL keeps the colon
  after `localhost` and carries no port.

Parameters stand in for every foreign call, described as what the class
passes and receives:

- The SSH connection is the `SshConnection` value the class would construct and
  authenticate (host, port, user, password or key file).
- `SetUrl` takes the port `getFreePort` returned and whether
  `createLocalPortForwarder` returned normally.
- `GetFreePort` takes the sequence of draws and bind outcomes.

## Model

| member | source | states |
|---|---|---|
| JavaSplit.SplitIsPair | src/main/java/com/ryanjustus/sshdatasource/SshDataSource.java:113-116 | `s.split("@")` has exactly the two fields `[a, b]` iff `s` is `a`, `@`, a non-empty `b`, then only `@`s, with no `@` in `a` or `b` (trailing empty fields dropped, a leading one kept) |
| JavaSplit.SplitRejoins | src/main/java/com/ryanjustus/sshdatasource/SshDataSource.java:113 | when `@` occurs, `split` returns fields free of `@` whose last is non-empty, and these fields with some empty ones appended rejoin to the input, so only trailing empty fields are dropped |
| Decimal.IntToString | src/main/java/com/ryanjustus/sshdatasource/SshDataSource.java:228 | the port rendered into the URL is non-empty, all digits except a leading `-`, begins with `-` iff it is negative, and has no leading zero (zero is `"0"`, never `"-0"`) |
| Decimal.ParseIntToString | src/main/java/com/ryanjustus/sshdatasource/SshDataSource.java:228 | parsing the rendered port gives back the port |
| Decimal.IntToStringInjective | src/main/java/com/ryanjustus/sshdatasource/SshDataSource.java:228 | different ports render differently |
| ConnectionPath.GetSqlConnectionPath | src/main/java/com/ryanjustus/sshdatasource/SshDataSource.java:223-238 | every URL starts with `jdbc:` and ends with the database name |
| ConnectionPath.ParseGetSqlConnectionPath | src/main/java/com/ryanjustus/sshdatasource/SshDataSource.java:226-234 | each URL has its engine's exact shape on `localhost`: reading it back yields the engine, the database, and the port for all engines but SQL Server |
| ConnectionPath.ConnectionPathDeterminesTarget | src/main/java/com/ryanjustus/sshdatasource/SshDataSource.java:226-234 | equal URLs mean equal engine and database, and equal port unless the engine is SQL Server |
| ConnectionPath.MsSqlIgnoresPort | src/main/java/com/ryanjustus/sshdatasource/SshDataSource.java:229-230 | the SQL Server URL is the same for any two ports |
| ConnectionPath.EmptyDatabaseEndsUrl | src/main/java/com/ryanjustus/sshdatasource/SshDataSource.java:227-234 | with an empty database name the URL ends in `/` (`:` for Oracle) |
| SshDataSource.ParseSshUser | src/main/java/com/ryanjustus/sshdatasource/SshDataSource.java:113-121 | an accepted `sshUser` is `user@host` plus only trailing `@`s, with no `@` in either part and a non-empty host; a rejected one throws `IllegalArgumentException("sshUser must be of the form user@host")` |
| SshDataSource.AcceptsUserAtHost | src/main/java/com/ryanjustus/sshdatasource/SshDataSource.java:113-118 | every string of that shape is accepted, with the user and host its parts |
| SshDataSource.ValidateSshTarget | src/main/java/com/ryanjustus/sshdatasource/SshDataSource.java:113-124 | accepted iff the credential is accepted and 1 <= port <= 65535; a bad credential is reported even when the port is bad; a good credential with a bad port gives "invalid ssh port" |
| SshDataSource.InitWithPass | src/main/java/com/ryanjustus/sshdatasource/SshDataSource.java:112-129 | fails exactly as the validation does; otherwise connects to the validated host on `sshPort` and authenticates as the validated user with the password |
| SshDataSource.InitWithKey | src/main/java/com/ryanjustus/sshdatasource/SshDataSource.java:137-153 | fails exactly as the validation does; otherwise targets the validated host on `sshPort` and passes the validated user and the key file to `authenticateWithPublicKey` (no `connect()`) |
| SshDataSource.InitPathsAgree | src/main/java/com/ryanjustus/sshdatasource/SshDataSource.java:139-150 | the password and key paths accept and reject the same inputs with the same exception, and use the same host, user and port |
| SshDataSource.NewWithPassword | src/main/java/com/ryanjustus/sshdatasource/SshDataSource.java:60-63 | with the default port 22 only the credential can fail; a new object targets the host from the split on port 22 as the user from the split, authenticates by password, its remote URL is `localhost` and it has no URL yet |
| SshDataSource.NewWithPasswordAndPort | src/main/java/com/ryanjustus/sshdatasource/SshDataSource.java:72-75 | succeeds iff credential and port are valid, and otherwise throws the validation's exception (the credential error before the port error); a new object authenticates by password, targets `localhost` and has no URL yet |
| SshDataSource.NewWithKey | src/main/java/com/ryanjustus/sshdatasource/SshDataSource.java:85-88 | with the default port 22 only the credential can fail; a new object targets the host from the split on port 22 and passes the user from the split and the key file to `authenticateWithPublicKey`; its remote URL is `localhost` and it has no URL yet |
| SshDataSource.NewWithKeyAndPort | src/main/java/com/ryanjustus/sshdatasource/SshDataSource.java:99-103 | succeeds iff credential and port are valid, and otherwise throws the validation's exception (the credential error before the port error); a new object targets the validated host on `sshPort` and passes the validated user and the key file to `authenticateWithPublicKey` (no `connect()`); its remote URL is `localhost` and it has no URL yet |
| SshDataSource.SetUrl | src/main/java/com/ryanjustus/sshdatasource/SshDataSource.java:175-191 | forwards the local port to `remoteUrl` on the database port; when forwarding succeeds the pool URL names the engine, the local port (not for SQL Server) and the database, `null` read as `""`; when it fails the URL is unchanged |
| SshDataSource.NullDatabaseNameIsEmpty | src/main/java/com/ryanjustus/sshdatasource/SshDataSource.java:177-180 | a `null` database name installs the same URL as `""`, ending in `/` for MySQL, SQL Server and PostgreSQL |
| SshDataSource.SetRemoteUrl | src/main/java/com/ryanjustus/sshdatasource/SshDataSource.java:199-201 | changes the remote host and nothing else |
| SshDataSource.SetUrlForwardsToRemoteUrl | src/main/java/com/ryanjustus/sshdatasource/SshDataSource.java:184 | after `setRemoteUrl(host)` the forward targets `host` |
| SshDataSource.SetRawUrl | src/main/java/com/ryanjustus/sshdatasource/SshDataSource.java:208-212 | always throws `UnsupportedOperationException`, whatever the URL and state |
| SshDataSource.TrailingAtIsAccepted | src/main/java/com/ryanjustus/sshdatasource/SshDataSource.java:113-118 | `"user@host@"` is accepted as user `user`, host `host` |
| SshDataSource.EmptyUserIsAccepted | src/main/java/com/ryanjustus/sshdatasource/SshDataSource.java:113-118 | `"@host"` is accepted with an empty user |
| SshDataSource.MissingHostIsRejected | src/main/java/com/ryanjustus/sshdatasource/SshDataSource.java:113-120 | `"user@"` is rejected |
| SshDataSource.DoubleAtIsRejected | src/main/java/com/ryanjustus/sshdatasource/SshDataSource.java:113-120 | `"a@@b"` is rejected |
| SshDataSource.EmptyUserStringIsRejected | src/main/java/com/ryanjustus/sshdatasource/SshDataSource.java:113-120 | `""` is rejected |
| SshDataSource.NoAtIsRejected | src/main/java/com/ryanjustus/sshdatasource/SshDataSource.java:113-120 | `"nohost"` is rejected |
| FreePort.CandidatePort | src/main/java/com/ryanjustus/sshdatasource/SshDataSource.java:249 | for every draw in [0, 1) the candidate port lies in [1024, 65534] |
| FreePort.CandidateCoversRange | src/main/java/com/ryanjustus/sshdatasource/SshDataSource.java:249 | the bound is tight: each port in [1024, 65534] is the candidate of some draw |
| FreePort.GetFreePort | src/main/java/com/ryanjustus/sshdatasource/SshDataSource.java:245-258 | returns the candidate of the first attempt whose bind succeeded, so always a port in [1024, 65534], and nothing when no attempt succeeded |

## Left out

- SSH session work is a foreign library call doing network I/O, and its failures are only logged, so none of it is modelled. This covers `Connection.connect`, `authenticateWithPassword`, `authenticateWithPublicKey` and `createLocalPortForwarder`. Their outcome enters `SetUrl` as a parameter.
- `close()` is not modelled. It closes the external pool, then the SSH connection.
- The pool's own `setUrl` and its connection handling are not modelled. The model records only the URL installed.
- `initWithKey` uses an undeclared `password` at line 153 and never calls `connect()`. Only its validation and the connection target are modelled.
- A `null` `sshUser` or `null` engine type would raise `NullPointerException`. These cases are not modelled.
- `setRemoteUrl(null)` is not modelled: the remote host is a non-null string.
- `SshDataSource.SetUrl`: only an `IOException` from `createLocalPortForwarder` is caught and logged. An unchecked exception propagates out of `setUrl` and is not modelled.
- The key constructors declare `FileNotFoundException`, but `initWithKey` never throws it: a `FileNotFoundException` raised inside the `try` at SshDataSource.java:151-156 is an `IOException` and is caught at line 154.
- Logging, `getParentLogger` and `Type.toString` are not modelled. `getParentLogger` always throws; `Type.toString` returns the constant's name.
- FreePort.CandidatePort: `Math.random()` is taken as an exact fraction in [0, 1). Double rounding of the product and sum is not modelled.
- FreePort.GetFreePort: runs over a finite sequence of draws and bind outcomes, and returns nothing when all binds fail. The source would keep drawing for ever. Whether a port stays free after the probe socket closes is outside the model.
