# Nacos external data source: dialect catalog, slot provisioning, service selection

This project models, in Dafny, the part of the Nacos config server that decides
which relational database a deployment talks to and how its connection pools
are configured:

- `DataSourceEnum` (module `DataSourceEnum`, file `datasource_enum.dfy`): the
  ordered catalog of 19 dialects (UNKNOWN first, then DERBY … DAMENG), each with
  its product name, driver class, XA class and validation query; the
  per-constant overrides of `getId`, `getUrlPrefixes` and `matchProductName`;
  and the two first-match lookups `fromJdbcUrl` and `fromProductName`. Both
  lookups are one generic search, `FirstMatch`, over the catalog in declaration
  order.
- `ExternalDataSourceProperties` (module `ExternalDataSource`, file
  `external_data_source.dfy`): a class holding `num`, `url`, `user` and
  `password`, its setters, `build` as a method with a loop proved against a
  closed-form specification `BuildOutcome`, and `getDriverClassName` as the
  function `DriverClassNameFor`.
- `DynamicDataSourceServiceFactory.selectDataSource` (module `ServiceFactory`,
  file `service_factory.dfy`): the switch on the upper-cased database name.
- Supporting modules: `Wrappers` (`Option` for a Java reference that may be
  null, `Result` for a call that may throw) and `Text` (the `java.lang.String`
  operations used: ASCII `toUpperCase`/`toLowerCase`, `equalsIgnoreCase`,
  `startsWith`, `contains`, `trim` and `split` on one character).

Environment inputs become parameters. The platform name `build` reads from the
environment is the `externalStorage` argument. `Class.forName` succeeding is a
`loadable: string -> bool` argument. The callback `build` invokes for each pool
is an out-parameter `trace`: the pools passed to it, in order.

Two behaviours of `build` worth knowing:
- a URL that trims to the empty string is accepted, and its pool gets an empty
  JDBC URL (`BlankUrlAccepted`);
- when there are fewer URLs than `num`, the pools of the earlier slots have
  already been passed to the callback before the error is raised
  (`ShortUrlList`).

Behaviour kept exactly as written:
- MYSQL's driver probe is by enum identity, so MARIADB gets its own driver
  (`MariaDbPlatformDriver`).
- The probe loads the whole driver string rather than the candidate
  (`ProbeCandidates`). With MYSQL's single-class driver string the two agree
  (`MysqlDriverIsSingleCandidate`, `SingleCandidateProbe`). With two
  comma-separated candidates the second could never be chosen
  (`TwoCandidateProbe`).

## Model

| member | source | states |
|---|---|---|
| `DataSourceEnum.CatalogIndexes` | config/src/main/java/com/alibaba/nacos/config/server/enums/DataSourceEnum.java:27-181 | `values()` lists every constant once, at its ordinal |
| `DataSourceEnum.FirstMatch` | config/src/main/java/com/alibaba/nacos/config/server/enums/DataSourceEnum.java:260-266 | the search over `values()` from ordinal k: nothing found iff no later constant is accepted; otherwise the result is accepted and no constant between k and it is |
| `DataSourceEnum.FirstMatchIs` | config/src/main/java/com/alibaba/nacos/config/server/enums/DataSourceEnum.java:281-285 | the search returns d iff d is accepted and no constant declared before d is |
| `DataSourceEnum.FirstMatchNone` | config/src/main/java/com/alibaba/nacos/config/server/enums/DataSourceEnum.java:287 | the search finds nothing iff no constant is accepted |
| `DataSourceEnum.AnyPrefixMatchesIff` | config/src/main/java/com/alibaba/nacos/config/server/enums/DataSourceEnum.java:261-265 | the inner prefix loop succeeds iff some prefix, between colons, starts the remainder |
| `DataSourceEnum.FromJdbcUrl` | config/src/main/java/com/alibaba/nacos/config/server/enums/DataSourceEnum.java:256-258 | `fromJdbcUrl` fails exactly for a non-null, non-empty URL that does not start with "jdbc" |
| `DataSourceEnum.JdbcUrlAbsent` | config/src/main/java/com/alibaba/nacos/config/server/enums/DataSourceEnum.java:256-269 | null and "" give UNKNOWN without an error |
| `DataSourceEnum.JdbcUrlWithoutScheme` | config/src/main/java/com/alibaba/nacos/config/server/enums/DataSourceEnum.java:258 | a non-empty URL without "jdbc" fails with "URL must start with 'jdbc'" |
| `DataSourceEnum.JdbcUrlFirstMatch` | config/src/main/java/com/alibaba/nacos/config/server/enums/DataSourceEnum.java:259-266 | for a "jdbc" URL the result is the first non-UNKNOWN constant, in declaration order, one of whose delimited prefixes starts the lower-cased remainder; UNKNOWN iff there is none |
| `DataSourceEnum.UrlPrefixesAre` | config/src/main/java/com/alibaba/nacos/config/server/enums/DataSourceEnum.java:219-221 | every constant's prefixes are its lower-cased name, except "sap", "firebirdsql", "as400" and the two INFORMIX prefixes |
| `DataSourceEnum.LowerCasedName` | config/src/main/java/com/alibaba/nacos/config/server/enums/DataSourceEnum.java:211-213 | lower-casing each constant's name gives the table of identifiers and default prefixes |
| `DataSourceEnum.UrlPrefixColonFree` | config/src/main/java/com/alibaba/nacos/config/server/enums/DataSourceEnum.java:262 | no URL prefix contains a colon |
| `DataSourceEnum.UrlPrefixLowerCase` | config/src/main/java/com/alibaba/nacos/config/server/enums/DataSourceEnum.java:220 | every URL prefix is already lower case |
| `DataSourceEnum.PrefixOwnerOf` | config/src/main/java/com/alibaba/nacos/config/server/enums/DataSourceEnum.java:219-221 | each prefix maps back to the constant that declares it |
| `DataSourceEnum.UrlPrefixOwner` | config/src/main/java/com/alibaba/nacos/config/server/enums/DataSourceEnum.java:260-264 | no two constants share a URL prefix |
| `DataSourceEnum.DelimitedUnique` | config/src/main/java/com/alibaba/nacos/config/server/enums/DataSourceEnum.java:262-263 | between colons, a colon-free prefix is read back exactly |
| `DataSourceEnum.UniqueUrlMatch` | config/src/main/java/com/alibaba/nacos/config/server/enums/DataSourceEnum.java:260-264 | a remainder matched by one constant only resolves to it |
| `DataSourceEnum.OnlyOwnerMatches` | config/src/main/java/com/alibaba/nacos/config/server/enums/DataSourceEnum.java:261-263 | ":p:…" is matched only by a constant that has p among its prefixes |
| `DataSourceEnum.JdbcRemainder` | config/src/main/java/com/alibaba/nacos/config/server/enums/DataSourceEnum.java:258-259 | "jdbc:<p>:<tail>" with a lower-case p passes the scheme check, and its lower-cased remainder is ":<p>:" followed by the lower-cased tail |
| `DataSourceEnum.OwnPrefixMatches` | config/src/main/java/com/alibaba/nacos/config/server/enums/DataSourceEnum.java:261-264 | a constant other than UNKNOWN matches every remainder that starts with one of its own prefixes between colons |
| `DataSourceEnum.JdbcUrlRoundTrip` | config/src/main/java/com/alibaba/nacos/config/server/enums/DataSourceEnum.java:256-266 | for every constant but UNKNOWN and each of its prefixes p, "jdbc:p:<anything>" resolves back to that constant |
| `DataSourceEnum.JdbcUrlForeignPrefix` | config/src/main/java/com/alibaba/nacos/config/server/enums/DataSourceEnum.java:256-269 | "jdbc:q:<anything>" with a colon-free, lower-case q that is no prefix of a constant other than UNKNOWN (so "unknown" too) resolves to UNKNOWN |
| `DataSourceEnum.JdbcUrlCaseInsensitive` | config/src/main/java/com/alibaba/nacos/config/server/enums/DataSourceEnum.java:259 | two "jdbc" URLs whose remainders agree once lower-cased resolve alike |
| `DataSourceEnum.JdbcUrlMixedCaseMysql` | config/src/main/java/com/alibaba/nacos/config/server/enums/DataSourceEnum.java:259-264 | "jdbc:MySQL:…" resolves to MYSQL |
| `DataSourceEnum.ProductNameAbsent` | config/src/main/java/com/alibaba/nacos/config/server/enums/DataSourceEnum.java:278-287 | null and "" resolve to UNKNOWN |
| `DataSourceEnum.NullProductNameNeverMatches` | config/src/main/java/com/alibaba/nacos/config/server/enums/DataSourceEnum.java:215-217 | exactly UNKNOWN, GAE and JTDS have a null product name, and no rule accepts anything for them |
| `DataSourceEnum.ProductNameResultHasName` | config/src/main/java/com/alibaba/nacos/config/server/enums/DataSourceEnum.java:281-283 | `fromProductName` yields UNKNOWN or a constant with a product name, never GAE or JTDS |
| `DataSourceEnum.ResolvedConstantAccepts` | config/src/main/java/com/alibaba/nacos/config/server/enums/DataSourceEnum.java:278-285 | a constant other than UNKNOWN that a name resolves to accepts the name's upper-cased form, and no constant declared before it does |
| `DataSourceEnum.ResolvesByProductName` | config/src/main/java/com/alibaba/nacos/config/server/enums/DataSourceEnum.java:279-285 | a non-empty name resolves to d when d accepts its upper-cased form and no earlier constant does |
| `DataSourceEnum.ProductNameFirstMatch` | config/src/main/java/com/alibaba/nacos/config/server/enums/DataSourceEnum.java:278-287 | for a non-empty name the result is the first constant, in declaration order, that accepts the upper-cased name; UNKNOWN iff no constant accepts it |
| `DataSourceEnum.IgnoreCaseLower` | config/src/main/java/com/alibaba/nacos/config/server/enums/DataSourceEnum.java:216 | `equalsIgnoreCase` against the upper-cased name is equality of the lower-cased forms |
| `DataSourceEnum.ProductNameUpperCase` | config/src/main/java/com/alibaba/nacos/config/server/enums/DataSourceEnum.java:32-181 | every product name is upper case |
| `DataSourceEnum.ProductNameSlashFree` | config/src/main/java/com/alibaba/nacos/config/server/enums/DataSourceEnum.java:32-181 | no product name holds a slash |
| `DataSourceEnum.ProductNameWithoutAs400` | config/src/main/java/com/alibaba/nacos/config/server/enums/DataSourceEnum.java:157 | neither a product name nor "SQL SERVER" contains "as/400" once lower-cased |
| `DataSourceEnum.ProductNameOwnerOf` | config/src/main/java/com/alibaba/nacos/config/server/enums/DataSourceEnum.java:27-181 | product names are pairwise distinct and none is "SQL SERVER" |
| `DataSourceEnum.ProductNamePrefixes` | config/src/main/java/com/alibaba/nacos/config/server/enums/DataSourceEnum.java:124-136 | only FIREBIRD's product name starts with "firebird", none with "db2/", and "SQL SERVER" with neither |
| `DataSourceEnum.OtherProductNameDiffers` | config/src/main/java/com/alibaba/nacos/config/server/enums/DataSourceEnum.java:215-217 | the inherited rule of a constant accepts no other constant's product name |
| `DataSourceEnum.ExtraRulesRejectOthers` | config/src/main/java/com/alibaba/nacos/config/server/enums/DataSourceEnum.java:105-157 | the extra rules of SQLSERVER, FIREBIRD, DB2 and DB2_AS400 each accept no product name of another constant |
| `DataSourceEnum.OnlyOwnerAcceptsProductName` | config/src/main/java/com/alibaba/nacos/config/server/enums/DataSourceEnum.java:105-157 | no constant's rule, override or inherited, accepts another constant's product name |
| `DataSourceEnum.ProductNameRoundTrip` | config/src/main/java/com/alibaba/nacos/config/server/enums/DataSourceEnum.java:278-285 | every non-null product name, in any case, resolves back to its own constant |
| `DataSourceEnum.ProductNameIgnoresCase` | config/src/main/java/com/alibaba/nacos/config/server/enums/DataSourceEnum.java:280 | upper- or lower-casing a name first does not change the result |
| `DataSourceEnum.SqlServerAlias` | config/src/main/java/com/alibaba/nacos/config/server/enums/DataSourceEnum.java:105-107 | "sql server" in any case resolves to SQLSERVER |
| `DataSourceEnum.FirebirdByPrefix` | config/src/main/java/com/alibaba/nacos/config/server/enums/DataSourceEnum.java:123-126 | every name starting with "firebird" in any case resolves to FIREBIRD |
| `DataSourceEnum.Db2ByPrefix` | config/src/main/java/com/alibaba/nacos/config/server/enums/DataSourceEnum.java:134-136 | every name starting with "db2/" in any case resolves to DB2 |
| `DataSourceEnum.As400BySubstring` | config/src/main/java/com/alibaba/nacos/config/server/enums/DataSourceEnum.java:155-157 | a name containing "as/400" that starts neither with "db2/" nor with "firebird" resolves to DB2_AS400 |
| `DataSourceEnum.Db2DeclaredBeforeAs400` | config/src/main/java/com/alibaba/nacos/config/server/enums/DataSourceEnum.java:133-157 | "DB2/AS/400" satisfies DB2_AS400's rule but resolves to DB2, declared first |
| `DataSourceEnum.IdOwnerOf` | config/src/main/java/com/alibaba/nacos/config/server/enums/DataSourceEnum.java:211-213 | each identifier maps back to the constant it is reported for: MYSQL for MARIADB, DB2 for DB2_AS400, the constant itself otherwise |
| `DataSourceEnum.BorrowedIds` | config/src/main/java/com/alibaba/nacos/config/server/enums/DataSourceEnum.java:146-147 | MARIADB reports "mysql" and DB2_AS400 reports "db2", the ids of MYSQL and DB2 |
| `DataSourceEnum.IdsShared` | config/src/main/java/com/alibaba/nacos/config/server/enums/DataSourceEnum.java:61-62 | two constants share an id iff they report the same parent: the two overrides are the only shared ids |
| `DataSourceEnum.IdIsLowerName` | config/src/main/java/com/alibaba/nacos/config/server/enums/DataSourceEnum.java:211-212 | every other id is the lower-cased constant name, and every id is lower case |
| `DataSourceEnum.MariaDbKeepsOwnSettings` | config/src/main/java/com/alibaba/nacos/config/server/enums/DataSourceEnum.java:59-64 | MARIADB shares MYSQL's id but keeps the driver "org.mariadb.jdbc.Driver", its own XA class and "SELECT 1" |
| `Text.Trim` | config/src/main/java/com/alibaba/nacos/config/server/service/datasource/ExternalDataSourceProperties.java:86 | `trim` never lengthens and leaves no character at or below U+0020 at either end |
| `Text.TrimStripsBlanks` | config/src/main/java/com/alibaba/nacos/config/server/service/datasource/ExternalDataSourceProperties.java:86 | what `trim` keeps is one contiguous part of the input, and everything removed before and after it is a character at or below U+0020 |
| `Text.TrimIdempotent` | config/src/main/java/com/alibaba/nacos/config/server/service/datasource/ExternalDataSourceProperties.java:87 | trimming twice is trimming once |
| `Text.Split` | config/src/main/java/com/alibaba/nacos/config/server/service/datasource/ExternalDataSourceProperties.java:126 | `split` gives at least one piece, none holds the separator, and joining them back gives the input |
| `Text.SplitWithoutSeparator` | config/src/main/java/com/alibaba/nacos/config/server/service/datasource/ExternalDataSourceProperties.java:126 | a string without the separator splits into itself |
| `ExternalDataSource.ProbeCandidates` | config/src/main/java/com/alibaba/nacos/config/server/service/datasource/ExternalDataSourceProperties.java:127-134 | the loop as written returns a candidate iff there is one and the whole driver string loads, and then it is the first |
| `ExternalDataSource.FirstLoadable` | config/src/main/java/com/alibaba/nacos/config/server/service/datasource/ExternalDataSourceProperties.java:109-117 | the documented intent: the first candidate, in list order, that loads, and none iff no candidate loads |
| `ExternalDataSource.MysqlDriverIsSingleCandidate` | config/src/main/java/com/alibaba/nacos/config/server/service/datasource/ExternalDataSourceProperties.java:125-126 | MYSQL's driver string splits into the single candidate "com.mysql.cj.jdbc.Driver" |
| `ExternalDataSource.SingleCandidateProbe` | config/src/main/java/com/alibaba/nacos/config/server/service/datasource/ExternalDataSourceProperties.java:129-130 | with one candidate the loop as written agrees with the first loadable candidate |
| `ExternalDataSource.TwoCandidateProbe` | config/src/main/java/com/alibaba/nacos/config/server/service/datasource/ExternalDataSourceProperties.java:127-133 | with two candidates where only the second loads, the loop as written gives null while the intended search gives the second |
| `ExternalDataSource.DriverSelection` | config/src/main/java/com/alibaba/nacos/config/server/service/datasource/ExternalDataSourceProperties.java:118-139 | for MYSQL the MySQL 8 driver if it loads, else null; for any other resolution, UNKNOWN and MARIADB included, that constant's own driver class |
| `ExternalDataSource.UnknownPlatformHasNoDriver` | config/src/main/java/com/alibaba/nacos/config/server/service/datasource/ExternalDataSourceProperties.java:135-137 | a platform that resolves to UNKNOWN gets a null driver |
| `ExternalDataSource.MariaDbPlatformDriver` | config/src/main/java/com/alibaba/nacos/config/server/service/datasource/ExternalDataSourceProperties.java:124 | "mariadb" in any case gets "org.mariadb.jdbc.Driver", not the MySQL probe |
| `ExternalDataSource.MysqlPlatformDriver` | config/src/main/java/com/alibaba/nacos/config/server/service/datasource/ExternalDataSourceProperties.java:124-130 | "mysql" in any case gets "com.mysql.cj.jdbc.Driver" if it loads, else null |
| `ExternalDataSource.SlotsGrow` | config/src/main/java/com/alibaba/nacos/config/server/service/datasource/ExternalDataSourceProperties.java:91 | one more slot appends its pool at the end |
| `ExternalDataSource.ExternalDataSourceProperties.constructor` | config/src/main/java/com/alibaba/nacos/config/server/service/datasource/ExternalDataSourceProperties.java:40-46 | `num` unset, the three lists empty |
| `ExternalDataSource.ExternalDataSourceProperties.SetNum` | config/src/main/java/com/alibaba/nacos/config/server/service/datasource/ExternalDataSourceProperties.java:48-50 | sets `num` and leaves the lists unchanged |
| `ExternalDataSource.ExternalDataSourceProperties.SetUrl` | config/src/main/java/com/alibaba/nacos/config/server/service/datasource/ExternalDataSourceProperties.java:52-54 | sets `url` and leaves the other fields unchanged |
| `ExternalDataSource.ExternalDataSourceProperties.SetUser` | config/src/main/java/com/alibaba/nacos/config/server/service/datasource/ExternalDataSourceProperties.java:56-58 | sets `user` and leaves the other fields unchanged |
| `ExternalDataSource.ExternalDataSourceProperties.SetPassword` | config/src/main/java/com/alibaba/nacos/config/server/service/datasource/ExternalDataSourceProperties.java:60-62 | sets `password` and leaves the other fields unchanged |
| `ExternalDataSource.ExternalDataSourceProperties.Build` | config/src/main/java/com/alibaba/nacos/config/server/service/datasource/ExternalDataSourceProperties.java:71-96 | the result and the pools passed to the callback are exactly `BuildOutcome` for the current fields and the driver chosen for the platform |
| `ExternalDataSource.ChecksComeFirst` | config/src/main/java/com/alibaba/nacos/config/server/service/datasource/ExternalDataSourceProperties.java:74-78 | a null `num`, an empty `user`, an empty `password` or a null or empty platform fails with its own error, in that order, before any pool reaches the callback |
| `ExternalDataSource.NoSlotsRequested` | config/src/main/java/com/alibaba/nacos/config/server/service/datasource/ExternalDataSourceProperties.java:94 | `num <= 0` builds nothing and fails with "no datasource available" |
| `ExternalDataSource.ShortUrlList` | config/src/main/java/com/alibaba/nacos/config/server/service/datasource/ExternalDataSourceProperties.java:80-92 | with fewer URLs than `num`, `build` fails at index `url.size()` after the full pools of every earlier slot, in order, were passed to the callback |
| `ExternalDataSource.BuildSucceeds` | config/src/main/java/com/alibaba/nacos/config/server/service/datasource/ExternalDataSourceProperties.java:80-95 | success iff every check passes and 0 < `num` <= `url.size()`; then exactly `num` pools, the same ones in the same order as the callback saw |
| `ExternalDataSource.SlotSettings` | config/src/main/java/com/alibaba/nacos/config/server/service/datasource/ExternalDataSourceProperties.java:85-90 | slot i gets the trimmed URL i, the trimmed user and password i or else the first, the platform's driver (the same for all slots) and "/* ping */ SELECT 1" |
| `ExternalDataSource.TwoSlotExample` | config/src/main/java/com/alibaba/nacos/config/server/service/datasource/ExternalDataSourceProperties.java:86-88 | two slots with one user and two passwords succeed with two pools, which are also what the callback saw: both take the only user, each takes its own password, and every setting is trimmed |
| `ExternalDataSource.ThreeSlotsTwoUrls` | config/src/main/java/com/alibaba/nacos/config/server/service/datasource/ExternalDataSourceProperties.java:80-82 | three slots and two URLs fail with the missing URL at index 2, after the pools of the first two URLs reached the callback |
| `ExternalDataSource.BlankUrlAccepted` | config/src/main/java/com/alibaba/nacos/config/server/service/datasource/ExternalDataSourceProperties.java:86 | a URL made only of blanks is accepted and its pool gets an empty JDBC URL |
| `ServiceFactory.SelectDataSource` | config/src/main/java/com/alibaba/nacos/config/server/service/datasource/DynamicDataSourceServiceFactory.java:21-33 | total for a non-null name; a null name fails |
| `ServiceFactory.SwitchNamesAreConstantNames` | config/src/main/java/com/alibaba/nacos/config/server/enums/DataSourceEnum.java:300-311 | the switch labels are the names of the DAMENG, ORACLE and MYSQL constants |
| `ServiceFactory.SelectionIff` | config/src/main/java/com/alibaba/nacos/config/server/service/datasource/DynamicDataSourceServiceFactory.java:23-31 | the DM service iff the name is "dameng" ignoring case, Oracle iff "oracle" ignoring case, MySQL iff neither |
| `ServiceFactory.DefaultBranch` | config/src/main/java/com/alibaba/nacos/config/server/service/datasource/DynamicDataSourceServiceFactory.java:29-31 | "MYSQL", "mysql", "POSTGRESQL" and "" select the MySQL service |
| `ServiceFactory.SelectionIgnoresCase` | config/src/main/java/com/alibaba/nacos/config/server/service/datasource/DynamicDataSourceServiceFactory.java:22 | the choice depends only on the upper-cased name |
| `ServiceFactory.SelectionAgreesWithProductName` | config/src/main/java/com/alibaba/nacos/config/server/service/datasource/DynamicDataSourceServiceFactory.java:25-28 | DM is selected iff the name resolves to DAMENG by product name, Oracle iff it resolves to ORACLE |

## Left out

- Spring `Binder` binding of the `db.*` properties (`ExternalDataSourceProperties.java:73`): the fields are set through the setters before `Build`.
- `PropertyUtil.getExternalStorage()`: the platform is the `externalStorage` argument.
- `DataSourcePoolProperties.build` and `HikariDataSource`: a pool is the record `Pool` of the five settings `build` makes; pool behaviour and the other pool settings are outside the model.
- `Class.forName` is the `loadable` argument. The stack trace printed on a failed load is not modelled.
- The callback's own effects: it is modelled only by the pools it receives (`trace`).
- Null elements of `url`, `user` or `password` and null lists: the lists are sequences of non-null strings, so the `NullPointerException` of `trim` or `size` on them is not modelled.
- The `dataSourceEnum == null` branch of `getDriverClassName` (`ExternalDataSourceProperties.java:120-122`): `fromProductName` never returns null, so the branch cannot run; `FromProductName` returns a `Dialect`, and the branch is omitted.
- Non-ASCII case mapping: `Text.Upper`, `Text.Lower` and `Text.EqualsIgnoreCase` map only the ASCII letters. Java's `toUpperCase`, `toLowerCase(Locale.ENGLISH)` and `equalsIgnoreCase` also map other letters, for example 'ſ' to 'S' and 'ı' to 'I', so Java resolves `fromProductName("ſqlite")` to SQLITE where `FromProductName` gives UNKNOWN. `toUpperCase()` without a locale in `fromProductName` and `selectDataSource` also depends on the default locale, which the model does not have.
- `Text.Split`: models `String.split` on a one-character separator but keeps trailing empty pieces, which Java drops; this only matters for MYSQL's driver string, which holds no comma.
- `CollectionUtils.getOrDefault` (called at `ExternalDataSourceProperties.java:87-88`): its source is not among the modelled files. It is modelled as `GetOrDefault`: the element if the index is in range, else the default. It has no property of its own beyond that.
- Exception messages: each `Preconditions.checkArgument` failure is one variant of `BuildError`, and the index of the missing URL is kept, but the formatted message text is not.
- `num` is an unbounded integer; as a Java `Integer` it cannot exceed 2^31 - 1, which does not change the loop's behaviour.
- The `DataSourceName` constants other than DAMENG, ORACLE and MYSQL, which no modelled operation uses.
- `DmDataSourceServiceImpl`, `OracleDataSourceServiceImpl` and `MysqlDataSourceServiceImpl`: represented only by the tags of `DataSourceService`.
