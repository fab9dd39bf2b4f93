/** The data-source selector of the sidebar (streamlit_kpi_dashboard.py, lines
    17-54): which I/O the dashboard performs for the chosen source, and the
    SQLAlchemy connection URL it assembles for a database. Reading files and
    running queries are not modelled; `Plan` says which of them happens. */
module Source {
  import opened Wrappers

  /** The three drivers offered by the "Tipo de banco de dados" selectbox. */
  datatype DbKind = Postgresql | Mysql | Sqlite

  /** The selectbox label, which is also the URL scheme. */
  function DriverName(kind: DbKind): string
  {
    match kind
    case Postgresql => "postgresql"
    case Mysql => "mysql"
    case Sqlite => "sqlite"
  }

  /** The text fields of the database form. `path` is shown for SQLite only,
      the five credential fields for the two network drivers only. */
  datatype SqlForm = SqlForm(
    kind: DbKind,
    path: string,
    user: string,
    password: string,
    host: string,
    port: string,
    database: string,
    query: string)

  /** Initial value of the "Porta" field. */
  function DefaultPort(kind: DbKind): (p: string)
    ensures kind == Postgresql ==> p == "5432"
    ensures kind == Mysql ==> p == "3306"
  {
    if kind == Postgresql then "5432" else "3306"
  }

  /** The form as first shown: "localhost" as host, the driver's default port,
      every other field empty. */
  function InitialForm(kind: DbKind): (f: SqlForm)
    ensures f.kind == kind && f.host == "localhost" && f.port == DefaultPort(kind)
    ensures f.path == "" && f.user == "" && f.password == "" && f.database == "" && f.query == ""
  {
    SqlForm(kind, "", "", "", "localhost", DefaultPort(kind), "", "")
  }

  /** The guard of lines 38 and 48: a non-empty path for SQLite, all five
      credential fields non-empty otherwise. */
  predicate ConnectionComplete(f: SqlForm)
  {
    if f.kind == Sqlite then f.path != ""
    else f.user != "" && f.password != "" && f.host != "" && f.port != "" && f.database != ""
  }

  const SqlitePrefix: string := "sqlite:///"

  /** The part of a network driver's URL after the scheme:
      `user:password@host:port/database`, with no escaping (line 50). */
  function ServerPart(f: SqlForm): string
  {
    f.user + ":" + f.password + "@" + f.host + ":" + f.port + "/" + f.database
  }

  /** The URL handed to `create_engine`, or `None` when no engine is built. */
  function EngineUrl(f: SqlForm): (u: Option<string>)
    ensures u.Some? <==> ConnectionComplete(f)
    ensures u.Some? && f.kind == Sqlite ==> u.value == SqlitePrefix + f.path
    ensures u.Some? && f.kind != Sqlite ==> u.value == DriverName(f.kind) + "://" + ServerPart(f)
  {
    if f.kind == Sqlite then
      if f.path != "" then Some(SqlitePrefix + f.path) else None
    else if f.user != "" && f.password != "" && f.host != "" && f.port != "" && f.database != "" then
      Some(DriverName(f.kind) + "://" + ServerPart(f))
    else None
  }

  /** What the connection URL designates. */
  datatype Endpoint =
    | FileDb(path: string)
    | ServerDb(kind: DbKind, user: string, password: string, host: string, port: string, database: string)

  function EndpointOf(f: SqlForm): Endpoint
  {
    if f.kind == Sqlite then FileDb(f.path)
    else ServerDb(f.kind, f.user, f.password, f.host, f.port, f.database)
  }

  /** Splits `s` around the first occurrence of `c`. */
  function CutAt(s: string, c: char): (r: Option<(string, string)>)
    ensures r.None? <==> c !in s
    ensures r.Some? ==> c !in r.value.0 && s == r.value.0 + [c] + r.value.1
  {
    if |s| == 0 then None
    else if s[0] == c then Some(([], s[1..]))
    else
      match CutAt(s[1..], c)
      case None => None
      case Some((a, b)) =>
        assert s == [s[0]] + s[1..];
        Some(([s[0]] + a, b))
  }

  lemma {:induction false} CutAtFirst(a: string, c: char, b: string)
    requires c !in a
    ensures CutAt(a + [c] + b, c) == Some((a, b))
  {
    if |a| > 0 {
      assert (a + [c] + b)[1..] == a[1..] + [c] + b;
      CutAtFirst(a[1..], c, b);
      assert [a[0]] + a[1..] == a;
    } else {
      assert a + [c] + b == [c] + b;
    }
  }

  function StripPrefix(s: string, p: string): (r: Option<string>)
    ensures r.Some? ==> s == p + r.value
  {
    if |p| <= |s| && s[..|p|] == p then
      assert s == s[..|p|] + s[|p|..];
      Some(s[|p|..])
    else None
  }

  /** Reads back `user:password@host:port/database`. */
  function ParseServer(kind: DbKind, rest: string): Option<Endpoint>
  {
    match CutAt(rest, ':')
    case None => None
    case Some((user, r1)) =>
      match CutAt(r1, '@')
      case None => None
      case Some((password, r2)) =>
        match CutAt(r2, ':')
        case None => None
        case Some((host, r3)) =>
          match CutAt(r3, '/')
          case None => None
          case Some((port, database)) => Some(ServerDb(kind, user, password, host, port, database))
  }

  /** Reads an engine URL back into the endpoint it names. */
  function ParseUrl(u: string): Option<Endpoint>
  {
    match StripPrefix(u, SqlitePrefix)
    case Some(path) => Some(FileDb(path))
    case None =>
      match StripPrefix(u, DriverName(Postgresql) + "://")
      case Some(rest) => ParseServer(Postgresql, rest)
      case None =>
        match StripPrefix(u, DriverName(Mysql) + "://")
        case Some(rest) => ParseServer(Mysql, rest)
        case None => None
  }

  /** The URL is built without escaping. A network driver's URL can be read
      back only when no field contains the delimiter that ends it; a SQLite URL
      carries the path alone. */
  predicate DelimiterFree(f: SqlForm)
  {
    f.kind == Sqlite || (':' !in f.user && '@' !in f.password && ':' !in f.host && '/' !in f.port)
  }

  lemma StripOwnPrefix(p: string, s: string)
    ensures StripPrefix(p + s, p) == Some(s)
  {
    assert (p + s)[..|p|] == p;
    assert (p + s)[|p|..] == s;
  }

  lemma ServerRoundTrip(f: SqlForm)
    requires f.kind != Sqlite && DelimiterFree(f)
    ensures ParseServer(f.kind, ServerPart(f))
            == Some(EndpointOf(f))
  {
    var r3 := f.port + "/" + f.database;
    var r2 := f.host + ":" + r3;
    var r1 := f.password + "@" + r2;
    var rest := f.user + ":" + r1;
    assert rest == ServerPart(f);
    CutAtFirst(f.user, ':', r1);
    assert f.user + [':'] + r1 == rest;
    CutAtFirst(f.password, '@', r2);
    assert f.password + ['@'] + r2 == r1;
    CutAtFirst(f.host, ':', r3);
    assert f.host + [':'] + r3 == r2;
    CutAtFirst(f.port, '/', f.database);
    assert f.port + ['/'] + f.database == r3;
  }

  /** Reading the engine URL back yields exactly the endpoint the form
      describes, whenever the form's fields do not contain URL delimiters. */
  lemma UrlReadBack(f: SqlForm)
    requires ConnectionComplete(f) && DelimiterFree(f)
    ensures EngineUrl(f).Some? && ParseUrl(EngineUrl(f).value) == Some(EndpointOf(f))
  {
    var u := EngineUrl(f).value;
    if f.kind == Sqlite {
      StripOwnPrefix(SqlitePrefix, f.path);
    } else {
      var rest := ServerPart(f);
      ServerUrl(f.kind, rest);
      ServerRoundTrip(f);
    }
  }

  /** A network driver's URL is read by `ParseServer` after its scheme. */
  lemma ServerUrl(kind: DbKind, rest: string)
    requires kind != Sqlite
    ensures ParseUrl(DriverName(kind) + "://" + rest) == ParseServer(kind, rest)
  {
    var scheme := DriverName(kind) + "://";
    var u := scheme + rest;
    StripOwnPrefix(scheme, rest);
    assert StripPrefix(u, SqlitePrefix).None? by {
      assert u[0] != SqlitePrefix[0];
    }
    if kind == Mysql {
      assert StripPrefix(u, DriverName(Postgresql) + "://").None? by {
        assert u[0] != 'p';
      }
    }
  }

  /** Every field `ParseServer` returns ends before the first occurrence of
      the delimiter that follows it. */
  lemma ServerFieldsDelimiterFree(kind: DbKind, rest: string)
    ensures ParseServer(kind, rest).Some? ==>
      var e := ParseServer(kind, rest).value;
      e.ServerDb? && ':' !in e.user && '@' !in e.password && ':' !in e.host && '/' !in e.port
  {
  }

  /** The URL of a complete form reads back to the form's endpoint exactly
      when the form's fields contain no URL delimiters. */
  lemma UrlRoundTrip(f: SqlForm)
    requires ConnectionComplete(f)
    ensures EngineUrl(f).Some?
    ensures ParseUrl(EngineUrl(f).value) == Some(EndpointOf(f)) <==> DelimiterFree(f)
  {
    if DelimiterFree(f) {
      UrlReadBack(f);
    } else {
      var rest := ServerPart(f);
      ServerUrl(f.kind, rest);
      ServerFieldsDelimiterFree(f.kind, rest);
    }
  }

  /** An `@` in the password is taken as the end of the password: the rest of
      it is read as the start of the host, so the URL names another endpoint. */
  lemma PasswordWithAtMisread(f: SqlForm, p: string, q: string)
    requires ConnectionComplete(f) && f.kind != Sqlite
    requires f.password == p + "@" + q && '@' !in p && ':' !in q
    requires ':' !in f.user && ':' !in f.host && '/' !in f.port
    ensures EngineUrl(f).Some?
    ensures ParseUrl(EngineUrl(f).value) == Some(ServerDb(f.kind, f.user, p, q + "@" + f.host, f.port, f.database))
    ensures ParseUrl(EngineUrl(f).value) != Some(EndpointOf(f))
  {
    var g := f.(password := p, host := q + "@" + f.host);
    AtMovesToHost(f, p, q);
    ServerUrl(f.kind, ServerPart(f));
    ServerRoundTrip(g);
    assert |p| < |f.password|;
  }

  /** Moving `q@` from the end of the password to the front of the host
      leaves the URL unchanged. */
  lemma AtMovesToHost(f: SqlForm, p: string, q: string)
    requires f.password == p + "@" + q
    ensures ServerPart(f) == ServerPart(f.(password := p, host := q + "@" + f.host))
  {
    var tail := ":" + f.port + "/" + f.database;
    assert ServerPart(f) == f.user + ":" + p + "@" + q + "@" + f.host + tail;
  }

  /** Contents of an uploaded file; the upload widget yields nothing until a
      file is chosen. */
  type FileBytes = seq<bv8>

  /** The three entries of "Selecione a origem dos dados". */
  datatype DataSource =
    | CsvUpload(csv: Option<FileBytes>)
    | ExcelUpload(xlsx: Option<FileBytes>)
    | Database(form: SqlForm)

  /** The I/O the dashboard performs to obtain its table. */
  datatype LoadStep =
    | AwaitInput
    | ReadCsv(csvBytes: FileBytes)
    | ReadExcel(xlsxBytes: FileBytes)
    | RunQuery(url: string, sql: string)

  /** Lines 24-54: the table is read from an uploaded file as soon as there is
      one; for a database, the query runs only once an engine exists and the
      query text is non-empty. Otherwise the dashboard waits (`df` stays None). */
  function Plan(src: DataSource): (step: LoadStep)
    ensures step.RunQuery? <==>
      src.Database? && EngineUrl(src.form).Some? && src.form.query != ""
    ensures step.RunQuery? ==>
      EngineUrl(src.form) == Some(step.url) && step.sql == src.form.query
    ensures step.ReadCsv? <==> src.CsvUpload? && src.csv.Some?
    ensures step.ReadCsv? ==> step.csvBytes == src.csv.value
    ensures step.ReadExcel? <==> src.ExcelUpload? && src.xlsx.Some?
    ensures step.ReadExcel? ==> step.xlsxBytes == src.xlsx.value
  {
    match src
    case CsvUpload(file) => if file.Some? then ReadCsv(file.value) else AwaitInput
    case ExcelUpload(file) => if file.Some? then ReadExcel(file.value) else AwaitInput
    case Database(f) =>
      match EngineUrl(f)
      case Some(url) => if f.query != "" then RunQuery(url, f.query) else AwaitInput
      case None => AwaitInput
  }

  /** A database source waits for input exactly when a connection field it
      needs or the query is empty: no connection is attempted and no error is
      raised. */
  lemma DatabaseWaitsForInput(f: SqlForm)
    ensures Plan(Database(f)) == AwaitInput <==>
      f.query == "" ||
      (f.kind == Sqlite && f.path == "") ||
      (f.kind != Sqlite &&
        (f.user == "" || f.password == "" || f.host == "" || f.port == "" || f.database == ""))
  {
  }

  /** A freshly shown form never connects: user, password and database start
      empty for the network drivers, and the path for SQLite. */
  lemma InitialFormWaits(kind: DbKind)
    ensures EngineUrl(InitialForm(kind)).None?
    ensures Plan(Database(InitialForm(kind))) == AwaitInput
  {
  }
}
