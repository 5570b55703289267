/** The catalog of database dialects (`DataSourceEnum`): one descriptor per
    constant, the per-constant overrides of `getId`, `getUrlPrefixes` and
    `matchProductName`, and the two first-match lookups `fromJdbcUrl` and
    `fromProductName`. */
module DataSourceEnum {
  import opened Wrappers
  import opened Text

  /** The enum constants, in declaration order. */
  datatype Dialect =
    | Unknown | Derby | H2 | Hsqldb | Sqlite | Mysql | MariaDb | Gae | Oracle
    | PostgreSql | Hana | Jtds | SqlServer | Firebird | Db2 | Db2As400
    | Teradata | Informix | Dameng

  /** `values()`: every constant once, in declaration order. */
  const Catalog: seq<Dialect> :=
    [Unknown, Derby, H2, Hsqldb, Sqlite, Mysql, MariaDb, Gae, Oracle,
     PostgreSql, Hana, Jtds, SqlServer, Firebird, Db2, Db2As400,
     Teradata, Informix, Dameng]

  /** `ordinal()`: where `d` stands in `values()`. */
  function Position(d: Dialect): (k: nat)
    ensures k < |Catalog| && Catalog[k] == d
  {
    match d
    case Unknown => 0     case Derby => 1       case H2 => 2
    case Hsqldb => 3      case Sqlite => 4      case Mysql => 5
    case MariaDb => 6     case Gae => 7         case Oracle => 8
    case PostgreSql => 9  case Hana => 10       case Jtds => 11
    case SqlServer => 12  case Firebird => 13   case Db2 => 14
    case Db2As400 => 15   case Teradata => 16   case Informix => 17
    case Dameng => 18
  }

  /** `values()` lists each constant at its ordinal and nowhere else. */
  lemma CatalogIndexes(i: nat)
    requires i < |Catalog|
    ensures Position(Catalog[i]) == i
  {
  }

  /** `name()`: the constant's identifier as declared. */
  function ConstantName(d: Dialect): string
  {
    match d
    case Unknown => "UNKNOWN"        case Derby => "DERBY"
    case H2 => "H2"                  case Hsqldb => "HSQLDB"
    case Sqlite => "SQLITE"          case Mysql => "MYSQL"
    case MariaDb => "MARIADB"        case Gae => "GAE"
    case Oracle => "ORACLE"          case PostgreSql => "POSTGRESQL"
    case Hana => "HANA"              case Jtds => "JTDS"
    case SqlServer => "SQLSERVER"    case Firebird => "FIREBIRD"
    case Db2 => "DB2"                case Db2As400 => "DB2_AS400"
    case Teradata => "TERADATA"      case Informix => "INFORMIX"
    case Dameng => "DAMENG"
  }

  /** The product name the database reports (first constructor argument),
      or null. */
  function ProductName(d: Dialect): Option<string>
  {
    match d
    case Unknown => None               case Derby => Some("DERBY")
    case H2 => Some("H2")              case Hsqldb => Some("HSQLDB")
    case Sqlite => Some("SQLITE")      case Mysql => Some("MYSQL")
    case MariaDb => Some("MARIADB")    case Gae => None
    case Oracle => Some("ORACLE")      case PostgreSql => Some("POSTGRESQL")
    case Hana => Some("HDB")           case Jtds => None
    case SqlServer => Some("SQLSERVER")  case Firebird => Some("FIREBIRD")
    case Db2 => Some("DB2")            case Db2As400 => Some("DB2_AS400")
    case Teradata => Some("TERADATA")  case Informix => Some("INFORMIX")
    case Dameng => Some("DAMENG")
  }

  /** `getDriverClassName()` (second constructor argument). */
  function DriverClassName(d: Dialect): Option<string>
  {
    match d
    case Unknown => None
    case Derby => Some("org.apache.derby.jdbc.EmbeddedDriver")
    case H2 => Some("org.h2.Driver")
    case Hsqldb => Some("org.hsqldb.jdbc.JDBCDriver")
    case Sqlite => Some("org.sqlite.JDBC")
    case Mysql => Some("com.mysql.cj.jdbc.Driver")
    case MariaDb => Some("org.mariadb.jdbc.Driver")
    case Gae => Some("com.google.appengine.api.rdbms.AppEngineDriver")
    case Oracle => Some("oracle.jdbc.OracleDriver")
    case PostgreSql => Some("org.postgresql.Driver")
    case Hana => Some("com.sap.db.jdbc.Driver")
    case Jtds => Some("net.sourceforge.jtds.jdbc.Driver")
    case SqlServer => Some("com.microsoft.sqlserver.jdbc.SQLServerDriver")
    case Firebird => Some("org.firebirdsql.jdbc.FBDriver")
    case Db2 => Some("com.ibm.db2.jcc.DB2Driver")
    case Db2As400 => Some("com.ibm.as400.access.AS400JDBCDriver")
    case Teradata => Some("com.teradata.jdbc.TeraDriver")
    case Informix => Some("com.informix.jdbc.IfxDriver")
    case Dameng => Some("dm.jdbc.driver.DmDriver")
  }

  /** `getXaDataSourceClassName()` (third constructor argument, null when
      the constructor does not take it). */
  function XaDataSourceClassName(d: Dialect): Option<string>
  {
    match d
    case Derby => Some("org.apache.derby.jdbc.EmbeddedXADataSource")
    case H2 => Some("org.h2.jdbcx.JdbcDataSource")
    case Hsqldb => Some("org.hsqldb.jdbc.pool.JDBCXADataSource")
    case Mysql => Some("com.mysql.cj.jdbc.MysqlXADataSource")
    case MariaDb => Some("org.mariadb.jdbc.MariaDbDataSource")
    case Oracle => Some("oracle.jdbc.xa.client.OracleXADataSource")
    case PostgreSql => Some("org.postgresql.xa.PGXADataSource")
    case Hana => Some("com.sap.db.jdbcext.XADataSourceSAP")
    case SqlServer => Some("com.microsoft.sqlserver.jdbc.SQLServerXADataSource")
    case Firebird => Some("org.firebirdsql.ds.FBXADataSource")
    case Db2 => Some("com.ibm.db2.jcc.DB2XADataSource")
    case Db2As400 => Some("com.ibm.as400.access.AS400JDBCXADataSource")
    case _ => None
  }

  /** `getValidationQuery()` (fourth constructor argument, null when the
      constructor does not take it). */
  function ValidationQuery(d: Dialect): Option<string>
  {
    match d
    case Derby => Some("SELECT 1 FROM SYSIBM.SYSDUMMY1")
    case H2 => Some("SELECT 1")
    case Hsqldb => Some("SELECT COUNT(*) FROM INFORMATION_SCHEMA.SYSTEM_USERS")
    case Mysql => Some("/* ping */ SELECT 1")
    case MariaDb => Some("SELECT 1")
    case Oracle => Some("SELECT 'Hello' from DUAL")
    case PostgreSql => Some("SELECT 1")
    case Hana => Some("SELECT 1 FROM SYS.DUMMY")
    case SqlServer => Some("SELECT 1")
    case Firebird => Some("SELECT 1 FROM RDB$DATABASE")
    case Db2 => Some("SELECT 1 FROM SYSIBM.SYSDUMMY1")
    case Db2As400 => Some("SELECT 1 FROM SYSIBM.SYSDUMMY1")
    case Informix => Some("select count(*) from systables")
    case Dameng => Some("select 1")
    case _ => None
  }

  /** `getId()`: the lower-cased constant name, overridden by MARIADB and
      DB2_AS400 to report their parent's identifier. */
  function Id(d: Dialect): string
  {
    match d
    case MariaDb => "mysql"
    case Db2As400 => "db2"
    case _ => Lower(ConstantName(d))
  }

  /** `getUrlPrefixes()`: the lower-cased constant name, overridden by HANA,
      FIREBIRD, DB2_AS400 and INFORMIX. */
  function UrlPrefixes(d: Dialect): seq<string>
  {
    match d
    case Hana => ["sap"]
    case Firebird => ["firebirdsql"]
    case Db2As400 => ["as400"]
    case Informix => ["informix-sqli", "informix-direct"]
    case _ => [Lower(ConstantName(d))]
  }

  /** The inherited `matchProductName`: a non-null product name equal to the
      candidate, ignoring case. */
  predicate DefaultMatchProductName(d: Dialect, name: string)
  {
    ProductName(d).Some? && EqualsIgnoreCase(ProductName(d).value, name)
  }

  /** `matchProductName`, with the extra rules of SQLSERVER, FIREBIRD, DB2 and
      DB2_AS400. */
  predicate MatchProductName(d: Dialect, name: string)
  {
    match d
    case SqlServer => DefaultMatchProductName(d, name) || EqualsIgnoreCase("SQL SERVER", name)
    case Firebird => DefaultMatchProductName(d, name) || StartsWith(Lower(name), "firebird")
    case Db2 => DefaultMatchProductName(d, name) || StartsWith(Lower(name), "db2/")
    case Db2As400 => DefaultMatchProductName(d, name) || Contains(Lower(name), "as/400")
    case _ => DefaultMatchProductName(d, name)
  }

  /** The colon-delimited prefix `fromJdbcUrl` looks for. */
  function Delimited(prefix: string): string
  {
    ":" + prefix + ":"
  }

  /** The inner loop of `fromJdbcUrl`: does one of `prefixes`, delimited,
      start `rest`? */
  function AnyPrefixMatches(prefixes: seq<string>, rest: string): bool
    decreases |prefixes|
  {
    if prefixes == [] then false
    else StartsWith(rest, Delimited(prefixes[0])) || AnyPrefixMatches(prefixes[1..], rest)
  }

  /** The inner loop finds a prefix exactly when one exists. */
  lemma {:induction false} AnyPrefixMatchesIff(prefixes: seq<string>, rest: string)
    ensures AnyPrefixMatches(prefixes, rest) <==> exists p :: p in prefixes && StartsWith(rest, Delimited(p))
    decreases |prefixes|
  {
    if prefixes != [] {
      AnyPrefixMatchesIff(prefixes[1..], rest);
      assert forall p :: p in prefixes <==> p == prefixes[0] || p in prefixes[1..];
    }
  }

  /** The test `fromJdbcUrl` applies to one constant. */
  predicate UrlMatches(d: Dialect, rest: string)
  {
    d != Unknown && AnyPrefixMatches(UrlPrefixes(d), rest)
  }

  /** The outer loop shared by `fromJdbcUrl` and `fromProductName`: the first
      constant, from ordinal `k` on in declaration order, that `accepts`. */
  function FirstMatch(k: nat, accepts: Dialect -> bool): (r: Option<Dialect>)
    requires k <= |Catalog|
    ensures r.None? <==> forall d :: k <= Position(d) ==> !accepts(d)
    ensures r.Some? ==> k <= Position(r.value) && accepts(r.value)
    ensures r.Some? ==> forall d :: k <= Position(d) < Position(r.value) ==> !accepts(d)
    decreases |Catalog| - k
  {
    if k == |Catalog| then None
    else if accepts(Catalog[k]) then Some(Catalog[k])
    else
      CatalogIndexes(k);
      FirstMatch(k + 1, accepts)
  }

  /** The search finds `d` exactly when `d` is accepted and no constant
      declared before it is. */
  lemma FirstMatchIs(accepts: Dialect -> bool, d: Dialect)
    ensures FirstMatch(0, accepts) == Some(d) <==>
            accepts(d) && forall e :: Position(e) < Position(d) ==> !accepts(e)
  {
    var found := FirstMatch(0, accepts);
    if accepts(d) && forall e :: Position(e) < Position(d) ==> !accepts(e) {
      var f := found.value;
      assert !(Position(f) < Position(d));
      assert !(Position(d) < Position(f));
      assert Catalog[Position(d)] == d;
    }
  }

  /** The search finds nothing exactly when no constant is accepted. */
  lemma FirstMatchNone(accepts: Dialect -> bool)
    ensures FirstMatch(0, accepts).None? <==> forall e :: !accepts(e)
  {
  }

  /** The result of a search that found nothing is UNKNOWN. */
  function OrUnknown(found: Option<Dialect>): Dialect
  {
    if found.Some? then found.value else Unknown
  }

  /** The test `fromJdbcUrl` applies to each constant, as a value. */
  function UrlAcceptor(rest: string): Dialect -> bool
  {
    d => UrlMatches(d, rest)
  }

  /** The error `Assert.isTrue` raises. */
  datatype ContractError = IllegalArgument(message: string)

  /** `fromJdbcUrl`: null and "" give UNKNOWN; any other URL must start with
      "jdbc"; the rest, lower-cased, is matched against every constant's
      delimited URL prefixes and the first constant that matches wins. */
  function FromJdbcUrl(url: Option<string>): (r: Result<Dialect, ContractError>)
    ensures r.Failure? <==> url.Some? && url.value != "" && !StartsWith(url.value, "jdbc")
  {
    if url.None? || |url.value| == 0 then Success(Unknown)
    else if !StartsWith(url.value, "jdbc") then Failure(IllegalArgument("URL must start with 'jdbc'"))
    else
      var rest := Lower(url.value[|"jdbc"|..]);
      Success(OrUnknown(FirstMatch(0, UrlAcceptor(rest))))
  }

  /** The test `fromProductName` applies to each constant, as a value. */
  function ProductNameAcceptor(name: string): Dialect -> bool
  {
    d => MatchProductName(d, name)
  }

  /** `fromProductName`: null and "" give UNKNOWN; otherwise the name is
      upper-cased and the first constant whose `matchProductName` accepts it
      wins. */
  function FromProductName(name: Option<string>): (r: Dialect)
  {
    if name.None? || |name.value| == 0 then Unknown
    else
      var upper := Upper(name.value);
      OrUnknown(FirstMatch(0, ProductNameAcceptor(upper)))
  }

  /* ---------------------------------------------------------------------
     fromJdbcUrl
     --------------------------------------------------------------------- */

  /** null and "" resolve to UNKNOWN without an error. */
  lemma JdbcUrlAbsent()
    ensures FromJdbcUrl(None) == Success(Unknown)
    ensures FromJdbcUrl(Some("")) == Success(Unknown)
  {
  }

  /** A non-empty URL that does not start with "jdbc" is a contract error, not
      UNKNOWN. */
  lemma JdbcUrlWithoutScheme(url: string)
    requires url != "" && !StartsWith(url, "jdbc")
    ensures FromJdbcUrl(Some(url)) == Failure(IllegalArgument("URL must start with 'jdbc'"))
  {
  }

  /** For a URL that starts with "jdbc", `fromJdbcUrl` gives the first
      constant in declaration order, other than UNKNOWN, one of whose
      delimited prefixes starts the lower-cased rest; UNKNOWN if there is none. */
  lemma JdbcUrlFirstMatch(url: string, d: Dialect)
    requires StartsWith(url, "jdbc")
    ensures var rest := Lower(url[4..]);
      FromJdbcUrl(Some(url)) == Success(d) <==>
        if d == Unknown then forall e :: !UrlMatches(e, rest)
        else UrlMatches(d, rest) && forall e :: Position(e) < Position(d) ==> !UrlMatches(e, rest)
  {
    var rest := Lower(url[4..]);
    var found := FirstMatch(0, UrlAcceptor(rest));
    assert FromJdbcUrl(Some(url)) == Success(OrUnknown(found));
    if d == Unknown {
      UrlSearchNone(rest);
      assert found.Some? ==> found.value != Unknown;
    } else {
      UrlSearchFinds(rest, d);
    }
  }

  /** The search over URL prefixes, stated in terms of `UrlMatches`. */
  lemma UrlSearchFinds(rest: string, d: Dialect)
    ensures FirstMatch(0, UrlAcceptor(rest)) == Some(d) <==>
            UrlMatches(d, rest) && forall e :: Position(e) < Position(d) ==> !UrlMatches(e, rest)
  {
    FirstMatchIs(UrlAcceptor(rest), d);
    assert forall e :: UrlAcceptor(rest)(e) == UrlMatches(e, rest);
  }

  lemma UrlSearchNone(rest: string)
    ensures FirstMatch(0, UrlAcceptor(rest)).None? <==> forall e :: !UrlMatches(e, rest)
  {
    FirstMatchNone(UrlAcceptor(rest));
    assert forall e :: UrlAcceptor(rest)(e) == UrlMatches(e, rest);
  }

  /** Proof helper: `getUrlPrefixes()` of every constant, written out as
      literals so that lemmas about prefixes can look them up cheaply;
      `UrlPrefixesAre` proves it equal to `UrlPrefixes`. */
  function UrlPrefixTable(d: Dialect): seq<string>
  {
    match d
    case Unknown => ["unknown"]        case Derby => ["derby"]
    case H2 => ["h2"]                  case Hsqldb => ["hsqldb"]
    case Sqlite => ["sqlite"]          case Mysql => ["mysql"]
    case MariaDb => ["mariadb"]        case Gae => ["gae"]
    case Oracle => ["oracle"]          case PostgreSql => ["postgresql"]
    case Hana => ["sap"]               case Jtds => ["jtds"]
    case SqlServer => ["sqlserver"]    case Firebird => ["firebirdsql"]
    case Db2 => ["db2"]                case Db2As400 => ["as400"]
    case Teradata => ["teradata"]      case Informix => ["informix-sqli", "informix-direct"]
    case Dameng => ["dameng"]
  }

  /** Proof helper: `name().toLowerCase(Locale.ENGLISH)` of every constant,
      written out as literals; `LowerCasedName` proves it equal to
      `Lower(ConstantName(d))`. */
  function LowerName(d: Dialect): string
  {
    match d
    case Unknown => "unknown"        case Derby => "derby"
    case H2 => "h2"                  case Hsqldb => "hsqldb"
    case Sqlite => "sqlite"          case Mysql => "mysql"
    case MariaDb => "mariadb"        case Gae => "gae"
    case Oracle => "oracle"          case PostgreSql => "postgresql"
    case Hana => "hana"              case Jtds => "jtds"
    case SqlServer => "sqlserver"    case Firebird => "firebird"
    case Db2 => "db2"                case Db2As400 => "db2_as400"
    case Teradata => "teradata"      case Informix => "informix"
    case Dameng => "dameng"
  }

  /** Proof helpers: the lower-cased constant names, a few at a time, so
      that no single proof evaluates all nineteen. */
  lemma LowerCasedNamesFirst()
    ensures Lower("UNKNOWN") == "unknown" && Lower("DERBY") == "derby" && Lower("H2") == "h2"
    ensures Lower("HSQLDB") == "hsqldb" && Lower("SQLITE") == "sqlite" && Lower("MYSQL") == "mysql"
    ensures Lower("MARIADB") == "mariadb"
  {
  }

  lemma LowerCasedNamesMiddle()
    ensures Lower("GAE") == "gae" && Lower("ORACLE") == "oracle" && Lower("POSTGRESQL") == "postgresql"
    ensures Lower("HANA") == "hana" && Lower("JTDS") == "jtds" && Lower("SQLSERVER") == "sqlserver"
  {
  }

  lemma LowerCasedNamesLast()
    ensures Lower("FIREBIRD") == "firebird" && Lower("DB2") == "db2" && Lower("DB2_AS400") == "db2_as400"
    ensures Lower("TERADATA") == "teradata" && Lower("INFORMIX") == "informix" && Lower("DAMENG") == "dameng"
  {
  }

  /** Lower-casing a constant name gives the table above. */
  lemma LowerCasedName(d: Dialect)
    ensures Lower(ConstantName(d)) == LowerName(d)
  {
    LowerCasedNamesFirst();
    LowerCasedNamesMiddle();
    LowerCasedNamesLast();
    match d
    case Unknown =>     case Derby =>       case H2 =>
    case Hsqldb =>      case Sqlite =>      case Mysql =>
    case MariaDb =>     case Gae =>         case Oracle =>
    case PostgreSql =>  case Hana =>        case Jtds =>
    case SqlServer =>   case Firebird =>    case Db2 =>
    case Db2As400 =>    case Teradata =>    case Informix =>
    case Dameng =>
  }

  /** The URL prefixes are the lower-cased constant names, except for the
      four overrides. */
  lemma UrlPrefixesAre(d: Dialect)
    ensures UrlPrefixes(d) == UrlPrefixTable(d)
  {
    LowerCasedName(d);
    match d
    case Unknown =>     case Derby =>       case H2 =>
    case Hsqldb =>      case Sqlite =>      case Mysql =>
    case MariaDb =>     case Gae =>         case Oracle =>
    case PostgreSql =>  case Hana =>        case Jtds =>
    case SqlServer =>   case Firebird =>    case Db2 =>
    case Db2As400 =>    case Teradata =>    case Informix =>
    case Dameng =>
  }

  /** Proof helpers: the URL prefixes are lower case and without a colon,
      five at a time, so that no single proof checks all twenty literals. */
  lemma PlainUrlPrefixesFirst()
    ensures Lower("unknown") == "unknown" && ':' !in "unknown"
    ensures Lower("derby") == "derby" && ':' !in "derby"
    ensures Lower("h2") == "h2" && ':' !in "h2"
    ensures Lower("hsqldb") == "hsqldb" && ':' !in "hsqldb"
    ensures Lower("sqlite") == "sqlite" && ':' !in "sqlite"
  {
  }

  lemma PlainUrlPrefixesSecond()
    ensures Lower("mysql") == "mysql" && ':' !in "mysql"
    ensures Lower("mariadb") == "mariadb" && ':' !in "mariadb"
    ensures Lower("gae") == "gae" && ':' !in "gae"
    ensures Lower("oracle") == "oracle" && ':' !in "oracle"
    ensures Lower("postgresql") == "postgresql" && ':' !in "postgresql"
  {
  }

  lemma PlainUrlPrefixesThird()
    ensures Lower("sap") == "sap" && ':' !in "sap"
    ensures Lower("jtds") == "jtds" && ':' !in "jtds"
    ensures Lower("sqlserver") == "sqlserver" && ':' !in "sqlserver"
    ensures Lower("firebirdsql") == "firebirdsql" && ':' !in "firebirdsql"
    ensures Lower("db2") == "db2" && ':' !in "db2"
  {
  }

  lemma PlainUrlPrefixesLast()
    ensures Lower("as400") == "as400" && ':' !in "as400"
    ensures Lower("teradata") == "teradata" && ':' !in "teradata"
    ensures Lower("informix-sqli") == "informix-sqli" && ':' !in "informix-sqli"
    ensures Lower("informix-direct") == "informix-direct" && ':' !in "informix-direct"
    ensures Lower("dameng") == "dameng" && ':' !in "dameng"
  {
  }

  /** No URL prefix holds a colon. */
  lemma UrlPrefixColonFree(d: Dialect, p: string)
    requires p in UrlPrefixes(d)
    ensures ':' !in p
  {
    UrlPrefixesAre(d);
    PlainUrlPrefixesFirst();
    PlainUrlPrefixesSecond();
    PlainUrlPrefixesThird();
    PlainUrlPrefixesLast();
  }

  /** Every URL prefix is already lower case. */
  lemma UrlPrefixLowerCase(d: Dialect, p: string)
    requires p in UrlPrefixes(d)
    ensures Lower(p) == p
  {
    UrlPrefixesAre(d);
    PlainUrlPrefixesFirst();
    PlainUrlPrefixesSecond();
    PlainUrlPrefixesThird();
    PlainUrlPrefixesLast();
  }

  /** Proof helper: length and first letter already tell the URL prefixes
      apart, so this gives the only constant that can own a prefix of this
      shape without comparing whole strings. */
  function PrefixOwner(p: string): Option<Dialect>
  {
    if p == [] then None
    else match (|p|, p[0])
      case (7, 'u') => Some(Unknown)     case (5, 'd') => Some(Derby)
      case (2, 'h') => Some(H2)          case (6, 'h') => Some(Hsqldb)
      case (6, 's') => Some(Sqlite)      case (5, 'm') => Some(Mysql)
      case (7, 'm') => Some(MariaDb)     case (3, 'g') => Some(Gae)
      case (6, 'o') => Some(Oracle)      case (10, 'p') => Some(PostgreSql)
      case (3, 's') => Some(Hana)        case (4, 'j') => Some(Jtds)
      case (9, 's') => Some(SqlServer)   case (11, 'f') => Some(Firebird)
      case (3, 'd') => Some(Db2)         case (5, 'a') => Some(Db2As400)
      case (8, 't') => Some(Teradata)    case (13, 'i') => Some(Informix)
      case (15, 'i') => Some(Informix)   case (6, 'd') => Some(Dameng)
      case _ => None
  }

  /** Every URL prefix names its own constant. */
  lemma PrefixOwnerOf(d: Dialect, p: string)
    requires p in UrlPrefixes(d)
    ensures PrefixOwner(p) == Some(d)
  {
    UrlPrefixesAre(d);
    match d
    case Unknown =>     case Derby =>       case H2 =>
    case Hsqldb =>      case Sqlite =>      case Mysql =>
    case MariaDb =>     case Gae =>         case Oracle =>
    case PostgreSql =>  case Hana =>        case Jtds =>
    case SqlServer =>   case Firebird =>    case Db2 =>
    case Db2As400 =>    case Teradata =>    case Informix =>
    case Dameng =>
  }

  /** No two constants share a URL prefix. */
  lemma UrlPrefixOwner(d1: Dialect, d2: Dialect, p: string)
    requires p in UrlPrefixes(d1) && p in UrlPrefixes(d2)
    ensures d1 == d2
  {
    PrefixOwnerOf(d1, p);
    PrefixOwnerOf(d2, p);
  }

  /** Between colons, a colon-free prefix is read back exactly. */
  lemma {:induction false} DelimitedUnique(p: string, q: string, rest: string)
    requires ':' !in p && ':' !in q
    requires StartsWith(Delimited(p) + rest, Delimited(q))
    ensures p == q
  {
    var s, dq := Delimited(p) + rest, Delimited(q);
    assert forall i :: 0 <= i < |p| ==> p[i] != ':';
    assert forall i :: 0 <= i < |q| ==> q[i] != ':';
    assert forall i :: 0 <= i < |dq| ==> s[i] == dq[i];
    assert forall i :: 0 <= i < |p| ==> s[i + 1] == p[i];
    assert forall i :: 0 <= i < |q| ==> dq[i + 1] == q[i];
    assert s[|p| + 1] == ':' && dq[|q| + 1] == ':';
  }

  /** A remainder that exactly one constant matches resolves to it. */
  lemma UniqueUrlMatch(rest: string, d: Dialect)
    requires UrlMatches(d, rest)
    requires forall e :: UrlMatches(e, rest) ==> e == d
    ensures FirstMatch(0, UrlAcceptor(rest)) == Some(d)
  {
    FirstMatchIs(UrlAcceptor(rest), d);
    assert forall e :: UrlAcceptor(rest)(e) == UrlMatches(e, rest);
  }

  /** A remainder ":p:..." is matched only by the constant that owns `p`. */
  lemma OnlyOwnerMatches(p: string, tail: string, e: Dialect)
    requires ':' !in p
    requires UrlMatches(e, Delimited(p) + tail)
    ensures p in UrlPrefixes(e)
  {
    AnyPrefixMatchesIff(UrlPrefixes(e), Delimited(p) + tail);
    var q :| q in UrlPrefixes(e) && StartsWith(Delimited(p) + tail, Delimited(q));
    UrlPrefixColonFree(e, q);
    DelimitedUnique(p, q, tail);
  }

  /** The remainder `fromJdbcUrl` matches for "jdbc:<p>:<tail>", with `p`
      already lower case. */
  lemma {:induction false} JdbcRemainder(p: string, tail: string)
    requires Lower(p) == p
    ensures var url := "jdbc" + Delimited(p) + tail;
      StartsWith(url, "jdbc") && Lower(url[4..]) == Delimited(p) + Lower(tail)
  {
    var url := "jdbc" + Delimited(p) + tail;
    assert url[..4] == "jdbc";
    assert url[4..] == ":" + p + ":" + tail;
    LowerConcat(":" + p + ":", tail);
    LowerConcat(":" + p, ":");
    LowerConcat(":", p);
  }

  /** A constant matches every remainder that starts with one of its own
      prefixes, delimited. */
  lemma OwnPrefixMatches(d: Dialect, p: string, tail: string)
    requires d != Unknown && p in UrlPrefixes(d)
    ensures UrlMatches(d, Delimited(p) + tail)
  {
    AnyPrefixMatchesIff(UrlPrefixes(d), Delimited(p) + tail);
    assert StartsWith(Delimited(p) + tail, Delimited(p));
  }

  /** Round trip: every URL prefix of every constant but UNKNOWN, written as
      "jdbc:<prefix>:<anything>", resolves back to that constant. */
  lemma {:induction false} JdbcUrlRoundTrip(d: Dialect, p: string, tail: string)
    requires d != Unknown && p in UrlPrefixes(d)
    ensures FromJdbcUrl(Some("jdbc" + Delimited(p) + tail)) == Success(d)
  {
    UrlPrefixColonFree(d, p);
    UrlPrefixLowerCase(d, p);
    JdbcRemainder(p, tail);
    var rest := Delimited(p) + Lower(tail);
    OwnPrefixMatches(d, p, Lower(tail));
    forall e | UrlMatches(e, rest) ensures e == d {
      OnlyOwnerMatches(p, Lower(tail), e);
      UrlPrefixOwner(d, e, p);
    }
    UniqueUrlMatch(rest, d);
  }

  /** A URL whose delimited prefix belongs to no constant other than UNKNOWN
      (UNKNOWN's own "unknown" included, since UNKNOWN is never matched)
      resolves to UNKNOWN, whatever follows it. */
  lemma {:induction false} JdbcUrlForeignPrefix(q: string, tail: string)
    requires ':' !in q && Lower(q) == q
    requires forall d :: d != Unknown ==> q !in UrlPrefixes(d)
    ensures FromJdbcUrl(Some("jdbc" + Delimited(q) + tail)) == Success(Unknown)
  {
    var url := "jdbc" + Delimited(q) + tail;
    JdbcRemainder(q, tail);
    var rest := Delimited(q) + Lower(tail);
    forall e ensures !UrlMatches(e, rest) {
      if UrlMatches(e, rest) {
        OnlyOwnerMatches(q, Lower(tail), e);
      }
    }
    JdbcUrlFirstMatch(url, Unknown);
  }

  /** Only the lower-cased text after "jdbc" decides the result, so the
      case in which a URL spells its sub-protocol does not matter. */
  lemma JdbcUrlCaseInsensitive(url1: string, url2: string)
    requires StartsWith(url1, "jdbc") && StartsWith(url2, "jdbc")
    requires Lower(url1[4..]) == Lower(url2[4..])
    ensures FromJdbcUrl(Some(url1)) == FromJdbcUrl(Some(url2))
  {
  }

  /** "jdbc:MySQL:..." is MYSQL. */
  lemma JdbcUrlMixedCaseMysql(tail: string)
    ensures FromJdbcUrl(Some("jdbc:MySQL:" + tail)) == Success(Mysql)
  {
    var written, canonical := "jdbc:MySQL:" + tail, "jdbc" + Delimited("mysql") + tail;
    assert written[4..] == ":MySQL:" + tail;
    assert canonical[4..] == ":mysql:" + tail;
    assert Lower(written[4..]) == Lower(canonical[4..]) by {
      LowerConcat(":MySQL:", tail);
      LowerConcat(":mysql:", tail);
      assert Lower(":MySQL:") == Lower(":mysql:");
    }
    assert FromJdbcUrl(Some(canonical)) == Success(Mysql) by {
      UrlPrefixesAre(Mysql);
      JdbcUrlRoundTrip(Mysql, "mysql", tail);
    }
    assert StartsWith(written, "jdbc");
    assert StartsWith(canonical, "jdbc");
  }

  /* ---------------------------------------------------------------------
     fromProductName
     --------------------------------------------------------------------- */

  /** null and "" resolve to UNKNOWN. */
  lemma ProductNameAbsent()
    ensures FromProductName(None) == Unknown
    ensures FromProductName(Some("")) == Unknown
  {
  }

  /** Exactly UNKNOWN, GAE and JTDS have a null product name, and neither the
      inherited predicate nor any override accepts anything for them. */
  lemma NullProductNameNeverMatches(d: Dialect, name: string)
    ensures ProductName(d).None? <==> d == Unknown || d == Gae || d == Jtds
    ensures ProductName(d).None? ==> !MatchProductName(d, name)
  {
  }

  /** `fromProductName` never yields GAE or JTDS: UNKNOWN is its only result
      without a product name. */
  lemma ProductNameResultHasName(name: Option<string>)
    ensures FromProductName(name) == Unknown || ProductName(FromProductName(name)).Some?
  {
    if name.Some? && name.value != "" {
      var upper := Upper(name.value);
      var found := FirstMatch(0, ProductNameAcceptor(upper));
      if found.Some? {
        assert ProductNameAcceptor(upper)(found.value);
        NullProductNameNeverMatches(found.value, upper);
      }
    }
  }

  /** A constant other than UNKNOWN that a name resolves to accepts the
      name's upper-cased form. */
  lemma ResolvedConstantAccepts(name: string, d: Dialect)
    requires FromProductName(Some(name)) == d && d != Unknown
    ensures name != "" && MatchProductName(d, Upper(name))
    ensures forall e :: Position(e) < Position(d) ==> !MatchProductName(e, Upper(name))
  {
    ProductNameAbsent();
    ProductNameFirstMatch(name, d);
  }

  /** The search over product names, stated in terms of `MatchProductName`. */
  lemma ProductNameSearchFinds(upper: string, d: Dialect)
    ensures FirstMatch(0, ProductNameAcceptor(upper)) == Some(d) <==>
            MatchProductName(d, upper) && forall e :: Position(e) < Position(d) ==> !MatchProductName(e, upper)
  {
    FirstMatchIs(ProductNameAcceptor(upper), d);
    assert forall e :: ProductNameAcceptor(upper)(e) == MatchProductName(e, upper);
  }

  lemma ProductNameSearchNone(upper: string)
    ensures FirstMatch(0, ProductNameAcceptor(upper)).None? <==> forall e :: !MatchProductName(e, upper)
  {
    FirstMatchNone(ProductNameAcceptor(upper));
    assert forall e :: ProductNameAcceptor(upper)(e) == MatchProductName(e, upper);
  }

  /** For a non-empty name, `fromProductName` gives the first constant, in
      declaration order, that accepts the upper-cased name, and UNKNOWN
      exactly when no constant accepts it. */
  lemma ProductNameFirstMatch(name: string, d: Dialect)
    requires name != ""
    ensures FromProductName(Some(name)) == d <==>
      if d == Unknown then forall e :: !MatchProductName(e, Upper(name))
      else MatchProductName(d, Upper(name)) &&
           forall e :: Position(e) < Position(d) ==> !MatchProductName(e, Upper(name))
  {
    var upper := Upper(name);
    var found := FirstMatch(0, ProductNameAcceptor(upper));
    assert FromProductName(Some(name)) == OrUnknown(found);
    if d == Unknown {
      ProductNameSearchNone(upper);
      NullProductNameNeverMatches(Unknown, upper);
      assert found.Some? ==> found.value != Unknown;
    } else {
      ProductNameSearchFinds(upper, d);
    }
  }

  /** A name resolves to `d` when `d` accepts its upper-cased form and no
      constant declared before `d` does. */
  lemma ResolvesByProductName(name: string, d: Dialect)
    requires name != ""
    requires MatchProductName(d, Upper(name))
    requires forall e :: Position(e) < Position(d) ==> !MatchProductName(e, Upper(name))
    ensures FromProductName(Some(name)) == d
  {
    var upper := Upper(name);
    FirstMatchIs(ProductNameAcceptor(upper), d);
    assert forall e :: ProductNameAcceptor(upper)(e) == MatchProductName(e, upper);
  }

  /** Matching the upper-cased name ignoring case is the same as matching
      its lower-cased form exactly. */
  lemma IgnoreCaseLower(a: string, name: string)
    ensures EqualsIgnoreCase(a, Upper(name)) <==> Lower(a) == Lower(name)
  {
    UpperIdempotent(name);
    CaseAbsorbs(a);
    CaseAbsorbs(name);
  }

  /** Proof helpers: the product names are upper case and without a slash,
      four at a time, so that no single proof checks all sixteen literals. */
  lemma PlainProductNamesFirst()
    ensures Upper("DERBY") == "DERBY" && '/' !in "DERBY"
    ensures Upper("H2") == "H2" && '/' !in "H2"
    ensures Upper("HSQLDB") == "HSQLDB" && '/' !in "HSQLDB"
    ensures Upper("SQLITE") == "SQLITE" && '/' !in "SQLITE"
  {
  }

  lemma PlainProductNamesSecond()
    ensures Upper("MYSQL") == "MYSQL" && '/' !in "MYSQL"
    ensures Upper("MARIADB") == "MARIADB" && '/' !in "MARIADB"
    ensures Upper("ORACLE") == "ORACLE" && '/' !in "ORACLE"
    ensures Upper("POSTGRESQL") == "POSTGRESQL" && '/' !in "POSTGRESQL"
  {
  }

  lemma PlainProductNamesThird()
    ensures Upper("HDB") == "HDB" && '/' !in "HDB"
    ensures Upper("SQLSERVER") == "SQLSERVER" && '/' !in "SQLSERVER"
    ensures Upper("FIREBIRD") == "FIREBIRD" && '/' !in "FIREBIRD"
    ensures Upper("DB2") == "DB2" && '/' !in "DB2"
  {
  }

  lemma PlainProductNamesLast()
    ensures Upper("DB2_AS400") == "DB2_AS400" && '/' !in "DB2_AS400"
    ensures Upper("TERADATA") == "TERADATA" && '/' !in "TERADATA"
    ensures Upper("INFORMIX") == "INFORMIX" && '/' !in "INFORMIX"
    ensures Upper("DAMENG") == "DAMENG" && '/' !in "DAMENG"
  {
  }

  /** Every product name is upper case. */
  lemma ProductNameUpperCase(d: Dialect)
    requires ProductName(d).Some?
    ensures Upper(ProductName(d).value) == ProductName(d).value
  {
    PlainProductNamesFirst();
    PlainProductNamesSecond();
    PlainProductNamesThird();
    PlainProductNamesLast();
    match d
    case Derby =>      case H2 =>         case Hsqldb =>     case Sqlite =>
    case Mysql =>      case MariaDb =>    case Oracle =>     case PostgreSql =>
    case Hana =>       case SqlServer =>  case Firebird =>   case Db2 =>
    case Db2As400 =>   case Teradata =>   case Informix =>   case Dameng =>
  }

  /** No product name holds a slash. */
  lemma ProductNameSlashFree(d: Dialect)
    requires ProductName(d).Some?
    ensures '/' !in ProductName(d).value
  {
    PlainProductNamesFirst();
    PlainProductNamesSecond();
    PlainProductNamesThird();
    PlainProductNamesLast();
    match d
    case Derby =>      case H2 =>         case Hsqldb =>     case Sqlite =>
    case Mysql =>      case MariaDb =>    case Oracle =>     case PostgreSql =>
    case Hana =>       case SqlServer =>  case Firebird =>   case Db2 =>
    case Db2As400 =>   case Teradata =>   case Informix =>   case Dameng =>
  }

  /** Text without a slash does not contain "as/400", in any case. */
  lemma WithoutSlashNoAs400(s: string)
    requires '/' !in s
    ensures !Contains(Lower(s), "as/400")
  {
    assert forall i :: 0 <= i < |s| ==> Lower(s)[i] != '/';
    NotContainsWithout(Lower(s), "as/400", 2);
  }

  /** No product name, and not "SQL SERVER", contains "as/400" once
      lower-cased. */
  lemma ProductNameWithoutAs400(d: Dialect)
    ensures ProductName(d).Some? ==> !Contains(Lower(ProductName(d).value), "as/400")
    ensures !Contains(Lower("SQL SERVER"), "as/400")
  {
    WithoutSlashNoAs400("SQL SERVER");
    if ProductName(d).Some? {
      ProductNameSlashFree(d);
      WithoutSlashNoAs400(ProductName(d).value);
    }
  }

  /** Proof helper: length and first letter already tell the product names
      apart, so this gives the only constant that can own a product name of
      this shape without comparing whole strings. */
  function ProductNameOwner(name: string): Option<Dialect>
  {
    if name == [] then None
    else match (|name|, name[0])
      case (5, 'D') => Some(Derby)       case (2, 'H') => Some(H2)
      case (6, 'H') => Some(Hsqldb)      case (6, 'S') => Some(Sqlite)
      case (5, 'M') => Some(Mysql)       case (7, 'M') => Some(MariaDb)
      case (6, 'O') => Some(Oracle)      case (10, 'P') => Some(PostgreSql)
      case (3, 'H') => Some(Hana)        case (9, 'S') => Some(SqlServer)
      case (8, 'F') => Some(Firebird)    case (3, 'D') => Some(Db2)
      case (9, 'D') => Some(Db2As400)    case (8, 'T') => Some(Teradata)
      case (8, 'I') => Some(Informix)    case (6, 'D') => Some(Dameng)
      case _ => None
  }

  /** No two constants share a product name, and none is "SQL SERVER". */
  lemma ProductNameOwnerOf(d: Dialect)
    requires ProductName(d).Some?
    ensures ProductNameOwner(ProductName(d).value) == Some(d)
    ensures ProductName(d).value != "SQL SERVER"
  {
    match d
    case Derby =>      case H2 =>         case Hsqldb =>     case Sqlite =>
    case Mysql =>      case MariaDb =>    case Oracle =>     case PostgreSql =>
    case Hana =>       case SqlServer =>  case Firebird =>   case Db2 =>
    case Db2As400 =>   case Teradata =>   case Informix =>   case Dameng =>
  }

  /** A prefix of a lower-cased string fixes the string's characters. */
  lemma StartsWithLower(s: string, p: string, i: nat)
    requires i < |p|
    ensures StartsWith(Lower(s), p) ==> i < |s| && LowerChar(s[i]) == p[i]
  {
    if StartsWith(Lower(s), p) {
      assert Lower(s)[i] == p[i];
    }
  }

  /** Only FIREBIRD's own product name starts with "firebird", and none
      starts with "db2/", once lower-cased; nor does the alias "SQL SERVER". */
  lemma ProductNamePrefixes(d: Dialect)
    requires ProductName(d).Some?
    ensures StartsWith(Lower(ProductName(d).value), "firebird") ==> d == Firebird
    ensures !StartsWith(Lower(ProductName(d).value), "db2/")
    ensures !StartsWith(Lower("SQL SERVER"), "firebird")
    ensures !StartsWith(Lower("SQL SERVER"), "db2/")
  {
    var pd := ProductName(d).value;
    StartsWithLower(pd, "firebird", 0);
    StartsWithLower(pd, "db2/", 3);
    StartsWithLower("SQL SERVER", "firebird", 0);
    StartsWithLower("SQL SERVER", "db2/", 0);
    match d
    case Derby =>      case H2 =>         case Hsqldb =>     case Sqlite =>
    case Mysql =>      case MariaDb =>    case Oracle =>     case PostgreSql =>
    case Hana =>       case SqlServer =>  case Firebird =>   case Db2 =>
    case Db2As400 =>   case Teradata =>   case Informix =>   case Dameng =>
  }

  /** No other constant has the same product name, ignoring case. */
  lemma OtherProductNameDiffers(d: Dialect, e: Dialect)
    requires ProductName(d).Some? && e != d
    ensures !DefaultMatchProductName(e, ProductName(d).value)
  {
    ProductNameOwnerOf(d);
    ProductNameUpperCase(d);
    if ProductName(e).Some? {
      ProductNameUpperCase(e);
      ProductNameOwnerOf(e);
    }
  }

  /** No extra rule of SQLSERVER, FIREBIRD, DB2 or DB2_AS400 accepts another
      constant's product name. */
  lemma ExtraRulesRejectOthers(d: Dialect)
    requires ProductName(d).Some?
    ensures d != SqlServer ==> !EqualsIgnoreCase("SQL SERVER", ProductName(d).value)
    ensures d != Firebird ==> !StartsWith(Lower(ProductName(d).value), "firebird")
    ensures d != Db2 ==> !StartsWith(Lower(ProductName(d).value), "db2/")
    ensures d != Db2As400 ==> !Contains(Lower(ProductName(d).value), "as/400")
  {
    ProductNameOwnerOf(d);
    ProductNameUpperCase(d);
    assert Upper("SQL SERVER") == "SQL SERVER";
    ProductNamePrefixes(d);
    ProductNameWithoutAs400(d);
  }

  /** A constant's own product name is accepted by no other constant. */
  lemma OnlyOwnerAcceptsProductName(d: Dialect, e: Dialect)
    requires ProductName(d).Some? && e != d
    ensures !MatchProductName(e, ProductName(d).value)
  {
    OtherProductNameDiffers(d, e);
    ExtraRulesRejectOthers(d);
  }

  /** Round trip: every non-null product name, in any case, resolves back
      to its own constant. */
  lemma ProductNameRoundTrip(d: Dialect, name: string)
    requires ProductName(d).Some? && EqualsIgnoreCase(name, ProductName(d).value)
    ensures FromProductName(Some(name)) == d
  {
    var pd := ProductName(d).value;
    ProductNameUpperCase(d);
    UpperIdempotent(name);
    assert Upper(name) == pd;
    forall e | Position(e) < Position(d) ensures !MatchProductName(e, pd) {
      OnlyOwnerAcceptsProductName(d, e);
    }
    ResolvesByProductName(name, d);
  }

  /** Upper- or lower-casing a name first changes nothing. */
  lemma ProductNameIgnoresCase(name: string)
    ensures FromProductName(Some(Upper(name))) == FromProductName(Some(name))
    ensures FromProductName(Some(Lower(name))) == FromProductName(Some(name))
  {
    UpperIdempotent(name);
    CaseAbsorbs(name);
  }

  /** SQLSERVER also accepts "SQL SERVER", in any case. */
  lemma SqlServerAlias(name: string)
    requires EqualsIgnoreCase(name, "SQL SERVER")
    ensures FromProductName(Some(name)) == SqlServer
  {
    var upper := Upper(name);
    UpperIdempotent(name);
    assert upper == "SQL SERVER";
    forall e | Position(e) < Position(SqlServer) ensures !MatchProductName(e, upper) {
      if ProductName(e).Some? {
        ProductNameUpperCase(e);
        ProductNameOwnerOf(e);
      }
    }
    ResolvesByProductName(name, SqlServer);
  }

  /** FIREBIRD accepts every name that starts with "firebird", in any case. */
  lemma FirebirdByPrefix(name: string)
    requires StartsWith(Lower(name), "firebird")
    ensures FromProductName(Some(name)) == Firebird
  {
    var upper := Upper(name);
    CaseAbsorbs(name);
    forall e | Position(e) < Position(Firebird) ensures !MatchProductName(e, upper) {
      IgnoreCaseLower("SQL SERVER", name);
      if ProductName(e).Some? {
        IgnoreCaseLower(ProductName(e).value, name);
        ProductNamePrefixes(e);
      }
    }
    ResolvesByProductName(name, Firebird);
  }

  /** DB2 accepts every name that starts with "db2/", in any case. */
  lemma Db2ByPrefix(name: string)
    requires StartsWith(Lower(name), "db2/")
    ensures FromProductName(Some(name)) == Db2
  {
    var upper := Upper(name);
    CaseAbsorbs(name);
    assert Lower(upper)[0] == 'd';
    forall e | Position(e) < Position(Db2) ensures !MatchProductName(e, upper) {
      IgnoreCaseLower("SQL SERVER", name);
      if ProductName(e).Some? {
        IgnoreCaseLower(ProductName(e).value, name);
        ProductNamePrefixes(e);
      }
    }
    ResolvesByProductName(name, Db2);
  }

  /** DB2_AS400 accepts every name that contains "as/400", in any case,
      unless a constant declared earlier takes it first: DB2 for a name
      starting with "db2/", FIREBIRD for one starting with "firebird". */
  lemma As400BySubstring(name: string)
    requires Contains(Lower(name), "as/400")
    requires !StartsWith(Lower(name), "db2/") && !StartsWith(Lower(name), "firebird")
    ensures FromProductName(Some(name)) == Db2As400
  {
    var upper := Upper(name);
    CaseAbsorbs(name);
    forall e | Position(e) < Position(Db2As400) ensures !MatchProductName(e, upper) {
      IgnoreCaseLower("SQL SERVER", name);
      ProductNameWithoutAs400(e);
      if ProductName(e).Some? {
        IgnoreCaseLower(ProductName(e).value, name);
      }
    }
    ResolvesByProductName(name, Db2As400);
  }

  /** Declaration order decides between overlapping rules: "DB2/AS/400"
      satisfies both DB2's and DB2_AS400's rule and resolves to DB2. */
  lemma Db2DeclaredBeforeAs400()
    ensures MatchProductName(Db2As400, Upper("DB2/AS/400"))
    ensures FromProductName(Some("DB2/AS/400")) == Db2
  {
    var lower := Lower(Upper("DB2/AS/400"));
    assert lower == "db2/as/400";
    assert OccursAt(lower, "as/400", 4);
    Db2ByPrefix("DB2/AS/400");
  }

  /* ---------------------------------------------------------------------
     getId
     --------------------------------------------------------------------- */

  /** The constant whose identifier `d` reports: MARIADB reports MYSQL's,
      DB2_AS400 reports DB2's, every other constant its own. */
  function IdParent(d: Dialect): Dialect
  {
    match d
    case MariaDb => Mysql
    case Db2As400 => Db2
    case _ => d
  }

  /** Proof helper: length and first letter already tell the identifiers
      apart, so this gives the only constant that can own an identifier of
      this shape, ignoring the two that borrow their parent's, without
      comparing whole strings. */
  function IdOwner(id: string): Option<Dialect>
  {
    if id == [] then None
    else match (|id|, id[0])
      case (7, 'u') => Some(Unknown)     case (5, 'd') => Some(Derby)
      case (2, 'h') => Some(H2)          case (6, 'h') => Some(Hsqldb)
      case (6, 's') => Some(Sqlite)      case (5, 'm') => Some(Mysql)
      case (3, 'g') => Some(Gae)         case (6, 'o') => Some(Oracle)
      case (10, 'p') => Some(PostgreSql) case (4, 'h') => Some(Hana)
      case (4, 'j') => Some(Jtds)        case (9, 's') => Some(SqlServer)
      case (8, 'f') => Some(Firebird)    case (3, 'd') => Some(Db2)
      case (8, 't') => Some(Teradata)    case (8, 'i') => Some(Informix)
      case (6, 'd') => Some(Dameng)
      case _ => None
  }

  /** Each identifier is owned by the constant it is reported for. */
  lemma IdOwnerOf(d: Dialect)
    ensures IdOwner(Id(d)) == Some(IdParent(d))
  {
    LowerCasedName(d);
    match d
    case Unknown =>     case Derby =>       case H2 =>
    case Hsqldb =>      case Sqlite =>      case Mysql =>
    case MariaDb =>     case Gae =>         case Oracle =>
    case PostgreSql =>  case Hana =>        case Jtds =>
    case SqlServer =>   case Firebird =>    case Db2 =>
    case Db2As400 =>    case Teradata =>    case Informix =>
    case Dameng =>
  }

  /** MARIADB reports "mysql" and DB2_AS400 reports "db2", the identifiers of
      MYSQL and DB2. */
  lemma BorrowedIds()
    ensures Id(MariaDb) == Id(Mysql) == "mysql"
    ensures Id(Db2As400) == Id(Db2) == "db2"
  {
    LowerCasedName(Mysql);
    LowerCasedName(Db2);
  }

  /** Two constants report the same identifier exactly when they report
      the same parent's: the two overrides are the only shared identifiers. */
  lemma IdsShared(d1: Dialect, d2: Dialect)
    ensures Id(d1) == Id(d2) <==> IdParent(d1) == IdParent(d2)
  {
    IdOwnerOf(d1);
    IdOwnerOf(d2);
    BorrowedIds();
  }

  /** Every identifier other than the two borrowed ones is the lower-cased
      constant name, and every identifier is lower case. */
  lemma IdIsLowerName(d: Dialect)
    ensures d != MariaDb && d != Db2As400 ==> Id(d) == Lower(ConstantName(d))
    ensures Lower(Id(d)) == Id(d)
  {
    LowerIdempotent(ConstantName(d));
  }

  /** MARIADB borrows MYSQL's identifier but keeps its own driver, XA class
      and validation query. */
  lemma MariaDbKeepsOwnSettings()
    ensures Id(MariaDb) == Id(Mysql)
    ensures DriverClassName(MariaDb) == Some("org.mariadb.jdbc.Driver") != DriverClassName(Mysql)
    ensures XaDataSourceClassName(MariaDb) != XaDataSourceClassName(Mysql)
    ensures ValidationQuery(MariaDb) == Some("SELECT 1") != ValidationQuery(Mysql)
  {
    BorrowedIds();
  }
}
