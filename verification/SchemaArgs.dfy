/**
 The arguments of the schema tools (internal/resources/schemajob.go): lists built by appends,
 from which everything that was put in can be read back, also through the shell.
 */
module SchemaArgs {
  import opened Wrappers
  import opened GoStrings
  import opened ClusterTypes
  import opened ShellQuoting

  datatype SqlStore = SqlStore(
    plugin: string, host: string, port: nat, user: string, database: string, tls: bool, verifyHost: bool)

  datatype CassandraStore = CassandraStore(hosts: seq<string>, port: nat, keyspace: string, user: string, tls: bool)

  /** What the tool is to do: set up an empty schema, or bring it up from a directory. */
  datatype Task = SetUp | BringUp(directory: string)

  // ----- numbers -----

  /** `%d` of a number that is not negative. */
  function Decimal(n: nat): string {
    if n < 10 then [Numeral(n)] else Decimal(n / 10) + [Numeral(n % 10)]
  }

  function Numeral(n: nat): char
    requires n < 10
  {
    '0' + n as char
  }

  lemma {:induction false} DecimalReadsBack(n: nat)
    ensures Decimal(n) != "" && AllDigits(Decimal(n)) && DigitsValue(Decimal(n)) == n
  {
    if n < 10 {
      assert Decimal(n)[..0] == "";
    } else {
      DecimalReadsBack(n / 10);
      var s := Decimal(n);
      assert s[..|s| - 1] == Decimal(n / 10);
    }
  }

  lemma DecimalIsInjective(m: nat, n: nat)
    requires Decimal(m) == Decimal(n)
    ensures m == n
  {
    DecimalReadsBack(m);
    DecimalReadsBack(n);
  }

  // ----- directories -----

  function Subdirectory(store: Store): string {
    if store == VisibilityStore then "visibility" else "temporal"
  }

  function SqlDirectory(version: string, store: Store): string {
    "/etc/temporal/schema/postgresql/" + version + "/" + Subdirectory(store) + "/versioned"
  }

  function CassandraDirectory(store: Store): string {
    "/etc/temporal/schema/cassandra/" + Subdirectory(store) + "/versioned"
  }

  /** The two stores never share a directory, whatever schema versions they are at, nor do the two kinds of databases. */
  lemma DirectoriesDiffer(v: string, w: string, store: Store, other: Store)
    ensures SqlDirectory(v, store) == SqlDirectory(w, other) <==> v == w && store == other
    ensures CassandraDirectory(DefaultStore) != CassandraDirectory(VisibilityStore)
    ensures SqlDirectory(v, store) != CassandraDirectory(other)
  {
    hide SqlDirectory, CassandraDirectory;
    SqlDirectoryHolds(v, store);
    SqlDirectoryHolds(w, other);
    CassandraDirectoryHolds(other);
    CassandraDirectoryHolds(DefaultStore);
    CassandraDirectoryHolds(VisibilityStore);
  }

  /** Where the parts of a directory's name stand. */
  lemma SqlDirectoryHolds(version: string, store: Store)
    ensures var d := SqlDirectory(version, store);
            && |d| == |version| + (if store == VisibilityStore then 53 else 51)
            && d[21] == 'p' && d[|d| - 11] == (if store == VisibilityStore then 'y' else 'l')
            && d[32..32 + |version|] == version
  {
    var prefix := "/etc/temporal/schema/postgresql/";
    var d := SqlDirectory(version, store);
    assert d[..32] == prefix && prefix[21] == 'p';
    assert d == prefix + version + ("/" + Subdirectory(store) + "/versioned");
    assert d[32..32 + |version|] == version;
  }

  lemma CassandraDirectoryHolds(store: Store)
    ensures |CassandraDirectory(store)| == (if store == VisibilityStore then 51 else 49) && CassandraDirectory(store)[21] == 'c'
  {
    var prefix := "/etc/temporal/schema/cassandra/";
    assert CassandraDirectory(store)[..31] == prefix && prefix[21] == 'c';
  }

  // ----- argument lists -----

  function Plugin(s: SqlStore): string {
    if s.plugin == "" then "postgres12" else s.plugin
  }

  function TaskArgs(task: Task): seq<string> {
    match task
    case SetUp => ["setup-schema", "-v", "0.0"]
    case BringUp(directory) => ["update-schema", "-d", directory]
  }

  function SqlTls(s: SqlStore): seq<string> {
    if !s.tls then [] else if s.verifyHost then ["--tls"] else ["--tls", "--tls-disable-host-verification"]
  }

  function SqlConnection(s: SqlStore): seq<string> {
    ["--plugin", Plugin(s), "--endpoint", s.host, "--port", Decimal(s.port), "--user", s.user, "--database", s.database]
  }

  function SqlToolArgs(s: SqlStore, task: Task): seq<string> {
    SqlConnection(s) + SqlTls(s) + TaskArgs(task)
  }

  function Endpoint(s: CassandraStore): string {
    if s.hosts == [] then "" else s.hosts[0]
  }

  function CassandraConnection(s: CassandraStore): seq<string> {
    ["--endpoint", Endpoint(s), "--port", Decimal(s.port), "--keyspace", s.keyspace]
  }

  function CassandraExtras(s: CassandraStore): seq<string> {
    (if s.user != "" then ["--user", s.user] else []) + (if s.tls then ["--tls"] else [])
  }

  function CassandraToolArgs(s: CassandraStore, task: Task): seq<string> {
    CassandraConnection(s) + CassandraExtras(s) + TaskArgs(task)
  }

  /** `sqlToolArgs`, by appends. */
  method BuildSqlArgs(s: SqlStore, task: Task) returns (args: seq<string>)
    ensures args == SqlToolArgs(s, task)
  {
    var plugin := s.plugin;
    if plugin == "" { plugin := "postgres12"; }
    args := ["--plugin", plugin, "--endpoint", s.host, "--port", Decimal(s.port), "--user", s.user, "--database", s.database];
    if s.tls {
      args := args + ["--tls"];
      if !s.verifyHost { args := args + ["--tls-disable-host-verification"]; }
    }
    match task {
      case SetUp => args := args + ["setup-schema", "-v", "0.0"];
      case BringUp(directory) => args := args + ["update-schema", "-d", directory];
    }
  }

  /** `cassandraToolArgs`, by appends. */
  method BuildCassandraArgs(s: CassandraStore, task: Task) returns (args: seq<string>)
    ensures args == CassandraToolArgs(s, task)
  {
    var endpoint := "";
    if |s.hosts| > 0 { endpoint := s.hosts[0]; }
    args := ["--endpoint", endpoint, "--port", Decimal(s.port), "--keyspace", s.keyspace];
    if s.user != "" { args := args + ["--user", s.user]; }
    if s.tls { args := args + ["--tls"]; }
    match task {
      case SetUp => args := args + ["setup-schema", "-v", "0.0"];
      case BringUp(directory) => args := args + ["update-schema", "-d", directory];
    }
  }

  // ----- reading back -----

  lemma SameTail<T>(a: seq<T>, x: seq<T>, b: seq<T>, y: seq<T>)
    requires |a| == |b| && a + x == b + y
    ensures a == b && x == y
  {
    assert a == (a + x)[..|a|] && b == (b + y)[..|b|];
    assert x == (a + x)[|a|..] && y == (b + y)[|b|..];
  }

  lemma FlagsDiffer()
    ensures "--tls" != "setup-schema" && "--tls" != "update-schema" && "setup-schema" != "update-schema"
    ensures "--user" != "--tls" && "--user" != "setup-schema" && "--user" != "update-schema"
    ensures "--tls-disable-host-verification" != "setup-schema" && "--tls-disable-host-verification" != "update-schema"
  {
    assert "--tls"[0] == '-' && "setup-schema"[0] == 's' && "update-schema"[0] == 'u' && "--user"[0] == '-';
    assert "--tls-disable-host-verification"[0] == '-' && "--tls"[2] == 't' && "--user"[2] == 'u';
  }

  /**
   The SQL tool's argument list holds everything it was built from: two lists are equal exactly
   when the stores agree on plugin, with postgres12 for none, host, port, user, database and
   TLS, with host verification if there is TLS, and the tasks are the same.
   */
  lemma SqlArgsReadBack(s: SqlStore, t: SqlStore, a: Task, b: Task)
    ensures SqlToolArgs(s, a) == SqlToolArgs(t, b) <==>
              && Plugin(s) == Plugin(t) && s.host == t.host && s.port == t.port && s.user == t.user && s.database == t.database
              && s.tls == t.tls && (s.tls ==> s.verifyHost == t.verifyHost) && a == b
  {
    if SqlToolArgs(s, a) == SqlToolArgs(t, b) {
      var x, y := SqlTls(s) + TaskArgs(a), SqlTls(t) + TaskArgs(b);
      assert SqlToolArgs(s, a) == SqlConnection(s) + x && SqlToolArgs(t, b) == SqlConnection(t) + y;
      SameTail(SqlConnection(s), x, SqlConnection(t), y);
      var p, q := SqlConnection(s), SqlConnection(t);
      assert p[1] == q[1] && p[3] == q[3] && p[5] == q[5] && p[7] == q[7] && p[9] == q[9];
      DecimalIsInjective(s.port, t.port);
      TlsReadsBack(s, t, a, b);
    }
  }

  lemma TlsReadsBack(s: SqlStore, t: SqlStore, a: Task, b: Task)
    requires SqlTls(s) + TaskArgs(a) == SqlTls(t) + TaskArgs(b)
    ensures s.tls == t.tls && (s.tls ==> s.verifyHost == t.verifyHost) && a == b
  {
    FlagsDiffer();
    var x, y := SqlTls(s) + TaskArgs(a), SqlTls(t) + TaskArgs(b);
    assert |x| == |SqlTls(s)| + 3 && |y| == |SqlTls(t)| + 3;
    SameTail(SqlTls(s), TaskArgs(a), SqlTls(t), TaskArgs(b));
    TaskReadsBack(a, b);
  }

  lemma TaskReadsBack(a: Task, b: Task)
    requires TaskArgs(a) == TaskArgs(b)
    ensures a == b
  {
    FlagsDiffer();
    assert TaskArgs(a)[0] == TaskArgs(b)[0] && TaskArgs(a)[2] == TaskArgs(b)[2];
  }

  /** Likewise for Cassandra: the first host, or none, the port, the keyspace, the user, TLS and the task. */
  lemma CassandraArgsReadBack(s: CassandraStore, t: CassandraStore, a: Task, b: Task)
    ensures CassandraToolArgs(s, a) == CassandraToolArgs(t, b) <==>
              && Endpoint(s) == Endpoint(t) && s.port == t.port && s.keyspace == t.keyspace && s.user == t.user && s.tls == t.tls && a == b
  {
    if CassandraToolArgs(s, a) == CassandraToolArgs(t, b) {
      var x, y := CassandraExtras(s) + TaskArgs(a), CassandraExtras(t) + TaskArgs(b);
      var p, q := CassandraConnection(s), CassandraConnection(t);
      assert CassandraToolArgs(s, a) == p + x && CassandraToolArgs(t, b) == q + y;
      SameTail(p, x, q, y);
      assert p[1] == q[1] && p[3] == q[3] && p[5] == q[5];
      DecimalIsInjective(s.port, t.port);
      ExtrasReadBack(s, t, a, b);
    }
  }

  lemma ExtrasReadBack(s: CassandraStore, t: CassandraStore, a: Task, b: Task)
    requires CassandraExtras(s) + TaskArgs(a) == CassandraExtras(t) + TaskArgs(b)
    ensures s.user == t.user && s.tls == t.tls && a == b
  {
    FlagsDiffer();
    var e, f := CassandraExtras(s), CassandraExtras(t);
    var x, y := e + TaskArgs(a), f + TaskArgs(b);
    assert |x| == |e| + 3 && |y| == |f| + 3;
    SameTail(e, TaskArgs(a), f, TaskArgs(b));
    TaskReadsBack(a, b);
    if e != [] { assert e[0] == f[0]; }
    if |e| >= 2 { assert e[1] == f[1]; }
  }

  /** The two lists in full, for a store with everything set. */
  lemma ArgsInFull(directory: string)
    ensures SqlToolArgs(SqlStore("", "db", 5432, "temporal", "visibility", true, false), BringUp(directory))
         == ["--plugin", "postgres12", "--endpoint", "db", "--port", "5432", "--user", "temporal", "--database", "visibility",
             "--tls", "--tls-disable-host-verification", "update-schema", "-d", directory]
    ensures CassandraToolArgs(CassandraStore(["c1", "c2"], 9042, "temporal", "op", true), SetUp)
         == ["--endpoint", "c1", "--port", "9042", "--keyspace", "temporal", "--user", "op", "--tls", "setup-schema", "-v", "0.0"]
  {
    assert Decimal(5432) == "5432" by { assert Decimal(5) == "5" && Decimal(54) == "54" && Decimal(543) == "543"; }
    assert Decimal(9042) == "9042" by { assert Decimal(9) == "9" && Decimal(90) == "90" && Decimal(904) == "904"; }
  }

  /** What one shell script hands the SQL tool determines the store and the task it was made for. */
  lemma ScriptReadsBack(s: SqlStore, t: SqlStore, a: Task, b: Task)
    requires Join(QuoteAll(SqlToolArgs(s, a)), " ") == Join(QuoteAll(SqlToolArgs(t, b)), " ")
    ensures Plugin(s) == Plugin(t) && s.host == t.host && s.port == t.port && s.user == t.user && s.database == t.database
    ensures s.tls == t.tls && (s.tls ==> s.verifyHost == t.verifyHost) && a == b
  {
    QuotingIsInjective(SqlToolArgs(s, a), SqlToolArgs(t, b));
    SqlArgsReadBack(s, t, a, b);
  }
}
