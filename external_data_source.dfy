/** `ExternalDataSourceProperties`: the bound `db.*` settings and `build`,
    which checks them and configures one connection pool per slot, choosing
    each pool's driver class from the platform name. */
module ExternalDataSource {
  import opened Wrappers
  import opened Text
  import opened DataSourceEnum

  /** The settings `build` puts on one pool. */
  datatype Pool = Pool(
    driverClassName: Option<string>,
    jdbcUrl: string,
    username: string,
    password: string,
    connectionTestQuery: string)

  /** The `Preconditions.checkArgument` failures of `build`, one per message. */
  datatype BuildError =
    | NumIsNull              // "db.num is null"
    | UserIsNull             // "db.user or db.user.[index] is null"
    | PasswordIsNull         // "db.password or db.password.[index] is null"
    | PlatformIsNull         // "db.platform is null"
    | UrlIsNull(index: int)  // "db.url.<index> is null"
    | NoDataSource           // "no datasource available"

  /** `CollectionUtils.getOrDefault`: the element at `index` when there is
      one, `default` otherwise. */
  function GetOrDefault(list: seq<string>, index: int, default: string): (r: string)
    ensures 0 <= index < |list| ==> r == list[index]
    ensures !(0 <= index < |list|) ==> r == default
  {
    if 0 <= index < |list| then list[index] else default
  }

  /* ---------------------------------------------------------------------
     getDriverClassName
     --------------------------------------------------------------------- */

  /** The candidate loop of `getDriverClassName` as written: for each
      candidate it probes `probe` (the whole driver string, not the
      candidate) and returns the candidate on the first successful probe. */
  function ProbeCandidates(candidates: seq<string>, probe: string, loadable: string -> bool): (r: Option<string>)
    ensures r.Some? <==> candidates != [] && loadable(probe)
    ensures r.Some? ==> r.value == candidates[0]
    decreases |candidates|
  {
    if candidates == [] then None
    else if loadable(probe) then Some(candidates[0])
    else ProbeCandidates(candidates[1..], probe, loadable)
  }

  /** The first candidate that can be loaded: what the comment on
      `getDriverClassName` describes. */
  function FirstLoadable(candidates: seq<string>, loadable: string -> bool): (r: Option<string>)
    ensures r.Some? ==> r.value in candidates && loadable(r.value)
    ensures r.None? <==> forall c :: c in candidates ==> !loadable(c)
    ensures r.Some? ==> exists k :: 0 <= k < |candidates| && candidates[k] == r.value &&
                                    forall j :: 0 <= j < k ==> !loadable(candidates[j])
    decreases |candidates|
  {
    if candidates == [] then None
    else if loadable(candidates[0]) then Some(candidates[0])
    else FirstLoadable(candidates[1..], loadable)
  }

  /** `getDriverClassName`: resolve the platform by product name; MYSQL (by
      identity, so not MARIADB) probes its comma-separated driver list, every
      other constant, UNKNOWN included, gives its own driver class. */
  function DriverClassNameFor(storageName: string, loadable: string -> bool): Option<string>
  {
    var dialect := FromProductName(Some(storageName));
    if dialect == Mysql then
      var driverClassName := DriverClassName(Mysql).value;
      ProbeCandidates(Split(driverClassName, ','), driverClassName, loadable)
    else DriverClassName(dialect)
  }

  /** MYSQL's driver string names one class, so it splits into itself. */
  lemma MysqlDriverIsSingleCandidate()
    ensures Split(DriverClassName(Mysql).value, ',') == ["com.mysql.cj.jdbc.Driver"]
  {
    var driver := DriverClassName(Mysql).value;
    assert forall i :: 0 <= i < |driver| ==> driver[i] != ',';
    SplitWithoutSeparator(driver, ',');
  }

  /** With one candidate, probing the whole string is probing the candidate,
      so the loop as written agrees with the first loadable candidate. */
  lemma {:induction false} SingleCandidateProbe(candidate: string, loadable: string -> bool)
    ensures ProbeCandidates([candidate], candidate, loadable) == FirstLoadable([candidate], loadable)
  {
    assert [candidate][1..] == [];
  }

  /** With two candidates the loop as written never finds the second: the
      joined string is probed, not the candidate. */
  lemma TwoCandidateProbe(first: string, second: string, loadable: string -> bool)
    requires !loadable(first + "," + second) && !loadable(first) && loadable(second)
    ensures ProbeCandidates([first, second], first + "," + second, loadable) == None
    ensures FirstLoadable([first, second], loadable) == Some(second)
  {
    assert [first, second][1..] == [second];
  }

  /** The driver `getDriverClassName` picks: for MYSQL the MySQL 8 driver when
      it can be loaded and null otherwise; for every other resolution that
      constant's own driver class, null for UNKNOWN. */
  lemma DriverSelection(storageName: string, loadable: string -> bool)
    ensures var dialect := FromProductName(Some(storageName));
      DriverClassNameFor(storageName, loadable) ==
        if dialect == Mysql then
          (if loadable("com.mysql.cj.jdbc.Driver") then Some("com.mysql.cj.jdbc.Driver") else None)
        else DriverClassName(dialect)
  {
    MysqlDriverIsSingleCandidate();
  }

  /** An unknown platform gets no driver class. */
  lemma UnknownPlatformHasNoDriver(storageName: string, loadable: string -> bool)
    requires FromProductName(Some(storageName)) == Unknown
    ensures DriverClassNameFor(storageName, loadable) == None
  {
  }

  /** "mariadb", in any case, resolves to MARIADB and keeps the MariaDB
      driver: the MySQL probe is for MYSQL alone. */
  lemma MariaDbPlatformDriver(storageName: string, loadable: string -> bool)
    requires EqualsIgnoreCase(storageName, "MARIADB")
    ensures DriverClassNameFor(storageName, loadable) == Some("org.mariadb.jdbc.Driver")
  {
    ProductNameRoundTrip(MariaDb, storageName);
  }

  /** "mysql", in any case, resolves to MYSQL and gets the MySQL 8 driver
      when it can be loaded, null otherwise. */
  lemma MysqlPlatformDriver(storageName: string, loadable: string -> bool)
    requires EqualsIgnoreCase(storageName, "MYSQL")
    ensures DriverClassNameFor(storageName, loadable) ==
      if loadable("com.mysql.cj.jdbc.Driver") then Some("com.mysql.cj.jdbc.Driver") else None
  {
    ProductNameRoundTrip(Mysql, storageName);
    DriverSelection(storageName, loadable);
  }

  /* ---------------------------------------------------------------------
     build, specified
     --------------------------------------------------------------------- */

  /** The argument checks `build` makes before the loop, in order. */
  function Precheck(num: Option<int>, user: seq<string>, password: seq<string>,
                    externalStorage: Option<string>): Option<BuildError>
  {
    if num.None? then Some(NumIsNull)
    else if user == [] then Some(UserIsNull)
    else if password == [] then Some(PasswordIsNull)
    else if externalStorage.None? || externalStorage.value == "" then Some(PlatformIsNull)
    else None
  }

  /** The pool built for slot `index`: the trimmed URL at `index`, the
      trimmed user and password at `index` or else the first ones, the
      platform's driver and always MYSQL's validation query. */
  function SlotPool(index: nat, url: seq<string>, user: seq<string>, password: seq<string>,
                    driver: Option<string>): Pool
    requires index < |url| && user != [] && password != []
  {
    Pool(driver,
         Trim(url[index]),
         Trim(GetOrDefault(user, index, user[0])),
         Trim(GetOrDefault(password, index, password[0])),
         ValidationQuery(Mysql).value)
  }

  /** The pools of slots `0 .. count - 1`, in index order. */
  function Slots(count: nat, url: seq<string>, user: seq<string>, password: seq<string>,
                 driver: Option<string>): (r: seq<Pool>)
    requires count <= |url| && user != [] && password != []
    ensures |r| == count
    ensures forall i :: 0 <= i < count ==> r[i] == SlotPool(i, url, user, password, driver)
  {
    seq(count, i requires 0 <= i < count => SlotPool(i, url, user, password, driver))
  }

  /** One more slot appends its pool. */
  lemma SlotsGrow(count: nat, url: seq<string>, user: seq<string>, password: seq<string>,
                  driver: Option<string>)
    requires count < |url| && user != [] && password != []
    ensures Slots(count + 1, url, user, password, driver)
      == Slots(count, url, user, password, driver) + [SlotPool(count, url, user, password, driver)]
  {
  }

  /** What `build` returns or throws, and the pools the callback saw. */
  datatype Outcome = Outcome(result: Result<seq<Pool>, BuildError>, trace: seq<Pool>)

  /** The driver `getDriverClassName` gives for the platform `build` reads,
      once it is known to be set. */
  function PlatformDriver(externalStorage: Option<string>, loadable: string -> bool): Option<string>
  {
    if externalStorage.None? then None else DriverClassNameFor(externalStorage.value, loadable)
  }

  /** `build` in closed form, given the driver chosen for the platform: a
      failed argument check stops it before any slot; otherwise slots
      `0 .. num - 1` are built in order until a slot has no URL, and an
      empty list of pools is an error. */
  function BuildOutcome(num: Option<int>, url: seq<string>, user: seq<string>, password: seq<string>,
                        externalStorage: Option<string>, driver: Option<string>): Outcome
  {
    var failed := Precheck(num, user, password, externalStorage);
    if failed.Some? then Outcome(Failure(failed.value), [])
    else
      if num.value <= 0 then Outcome(Failure(NoDataSource), [])
      else if |url| < num.value then Outcome(Failure(UrlIsNull(|url|)), Slots(|url|, url, user, password, driver))
      else
        var pools := Slots(num.value, url, user, password, driver);
        Outcome(Success(pools), pools)
  }

  /* ---------------------------------------------------------------------
     The properties object
     --------------------------------------------------------------------- */

  /** The `db.*` settings as bound, and `build`. */
  class ExternalDataSourceProperties {
    var num: Option<int>
    var url: seq<string>
    var user: seq<string>
    var password: seq<string>

    /** A fresh object: `num` unset and the three lists empty. */
    constructor()
      ensures num == None && url == [] && user == [] && password == []
    {
      num := None;
      url := [];
      user := [];
      password := [];
    }

    method SetNum(num: Option<int>)
      modifies this
      ensures this.num == num
      ensures url == old(url) && user == old(user) && password == old(password)
    {
      this.num := num;
    }

    method SetUrl(url: seq<string>)
      modifies this
      ensures this.url == url
      ensures num == old(num) && user == old(user) && password == old(password)
    {
      this.url := url;
    }

    method SetUser(user: seq<string>)
      modifies this
      ensures this.user == user
      ensures num == old(num) && url == old(url) && password == old(password)
    {
      this.user := user;
    }

    method SetPassword(password: seq<string>)
      modifies this
      ensures this.password == password
      ensures num == old(num) && url == old(url) && user == old(user)
    {
      this.password := password;
    }

    /** `build`: check the settings, then configure one pool per slot, adding
        it to the result and passing it to the callback (`trace`) before
        the next slot is checked. */
    method Build(externalStorage: Option<string>, loadable: string -> bool)
      returns (result: Result<seq<Pool>, BuildError>, trace: seq<Pool>)
      ensures Outcome(result, trace) ==
        BuildOutcome(num, url, user, password, externalStorage, PlatformDriver(externalStorage, loadable))
    {
      trace := [];
      var dataSources: seq<Pool> := [];
      if num.None? {
        return Failure(NumIsNull), trace;
      }
      if user == [] {
        return Failure(UserIsNull), trace;
      }
      if password == [] {
        return Failure(PasswordIsNull), trace;
      }
      if externalStorage.None? || externalStorage.value == "" {
        return Failure(PlatformIsNull), trace;
      }
      ghost var driver := PlatformDriver(externalStorage, loadable);
      var index := 0;
      while index < num.value
        invariant 0 <= index <= |url|
        invariant index == 0 || index <= num.value
        invariant dataSources == trace == Slots(index, url, user, password, driver)
      {
        var currentSize := index + 1;
        if !(|url| >= currentSize) {
          assert index == |url| < num.value;
          return Failure(UrlIsNull(index)), trace;
        }
        var driverClassName := DriverClassNameFor(externalStorage.value, loadable);
        var pool := Pool(driverClassName,
                         Trim(url[index]),
                         Trim(GetOrDefault(user, index, user[0])),
                         Trim(GetOrDefault(password, index, password[0])),
                         ValidationQuery(Mysql).value);
        assert pool == SlotPool(index, url, user, password, driver);
        SlotsGrow(index, url, user, password, driver);
        dataSources := dataSources + [pool];
        trace := trace + [pool];
        index := index + 1;
      }
      if dataSources == [] {
        assert num.value <= 0;
        return Failure(NoDataSource), trace;
      }
      assert index == num.value <= |url|;
      return Success(dataSources), trace;
    }
  }

  /* ---------------------------------------------------------------------
     build, properties
     --------------------------------------------------------------------- */

  /** A failed argument check throws before any slot is built or passed to
      the callback. */
  lemma ChecksComeFirst(num: Option<int>, url: seq<string>, user: seq<string>, password: seq<string>,
                        externalStorage: Option<string>, driver: Option<string>)
    ensures num.None? ==>
      BuildOutcome(num, url, user, password, externalStorage, driver) == Outcome(Failure(NumIsNull), [])
    ensures num.Some? && user == [] ==>
      BuildOutcome(num, url, user, password, externalStorage, driver) == Outcome(Failure(UserIsNull), [])
    ensures num.Some? && user != [] && password == [] ==>
      BuildOutcome(num, url, user, password, externalStorage, driver) == Outcome(Failure(PasswordIsNull), [])
    ensures num.Some? && user != [] && password != [] && (externalStorage.None? || externalStorage.value == "") ==>
      BuildOutcome(num, url, user, password, externalStorage, driver) == Outcome(Failure(PlatformIsNull), [])
  {
  }

  /** A non-positive `num` builds nothing and fails with "no datasource
      available". */
  lemma NoSlotsRequested(num: int, url: seq<string>, user: seq<string>, password: seq<string>,
                         externalStorage: string, driver: Option<string>)
    requires user != [] && password != [] && externalStorage != "" && num <= 0
    ensures BuildOutcome(Some(num), url, user, password, Some(externalStorage), driver)
      == Outcome(Failure(NoDataSource), [])
  {
  }

  /** Fewer URLs than `num`: `build` fails at the first index without a URL,
      after every earlier slot was already passed to the callback. */
  lemma ShortUrlList(num: int, url: seq<string>, user: seq<string>, password: seq<string>,
                     externalStorage: string, driver: Option<string>)
    requires user != [] && password != [] && externalStorage != "" && 0 < num && |url| < num
    ensures var o := BuildOutcome(Some(num), url, user, password, Some(externalStorage), driver);
      o.result == Failure(UrlIsNull(|url|)) &&
      |o.trace| == |url| &&
      forall i :: 0 <= i < |url| ==> o.trace[i].jdbcUrl == Trim(url[i])
    ensures BuildOutcome(Some(num), url, user, password, Some(externalStorage), driver).trace
      == Slots(|url|, url, user, password, driver)
  {
  }

  /** `build` succeeds exactly when every check passes and there are between
      one and |url| slots; it then returns `num` pools, the same ones, in the
      same order, as the callback saw. */
  lemma BuildSucceeds(num: Option<int>, url: seq<string>, user: seq<string>, password: seq<string>,
                      externalStorage: Option<string>, driver: Option<string>)
    ensures var o := BuildOutcome(num, url, user, password, externalStorage, driver);
      o.result.Success? <==>
        Precheck(num, user, password, externalStorage).None? && 0 < num.value <= |url|
    ensures var o := BuildOutcome(num, url, user, password, externalStorage, driver);
      o.result.Success? ==> |o.result.value| == num.value && o.result.value == o.trace
  {
  }

  /** Slot `i` of a successful `build`: the trimmed URL at `i`, the trimmed
      user and password at `i` or else the first ones, the driver chosen
      for the platform, the same for every slot, and MYSQL's validation query
      whatever the platform. */
  lemma SlotSettings(num: Option<int>, url: seq<string>, user: seq<string>, password: seq<string>,
                     externalStorage: Option<string>, driver: Option<string>, i: int)
    requires BuildOutcome(num, url, user, password, externalStorage, driver).result.Success?
    requires 0 <= i < num.value
    ensures var pool := BuildOutcome(num, url, user, password, externalStorage, driver).result.value[i];
      pool.jdbcUrl == Trim(url[i]) &&
      pool.username == Trim(if i < |user| then user[i] else user[0]) &&
      pool.password == Trim(if i < |password| then password[i] else password[0]) &&
      pool.driverClassName == driver &&
      pool.connectionTestQuery == "/* ping */ SELECT 1"
  {
    SlotPoolSettings(i, url, user, password, driver);
    assert BuildOutcome(num, url, user, password, externalStorage, driver).result.value[i]
      == SlotPool(i, url, user, password, driver);
  }

  lemma SlotPoolSettings(i: nat, url: seq<string>, user: seq<string>, password: seq<string>,
                         driver: Option<string>)
    requires i < |url| && user != [] && password != []
    ensures var pool := SlotPool(i, url, user, password, driver);
      pool.jdbcUrl == Trim(url[i]) &&
      pool.username == Trim(if i < |user| then user[i] else user[0]) &&
      pool.password == Trim(if i < |password| then password[i] else password[0]) &&
      pool.driverClassName == driver &&
      pool.connectionTestQuery == "/* ping */ SELECT 1"
  {
  }

  /** Two slots, one user and two passwords: both slots take the only user,
      each takes its own password, and every setting is trimmed. */
  lemma TwoSlotExample(url0: string, url1: string, u: string, p0: string, p1: string,
                       externalStorage: Option<string>, driver: Option<string>)
    requires externalStorage.Some? && externalStorage.value != ""
    ensures var o := BuildOutcome(Some(2), [url0, url1], [u], [p0, p1], externalStorage, driver);
      o.result.Success? && o.result.value == o.trace && |o.trace| == 2 &&
      o.trace[0].jdbcUrl == Trim(url0) && o.trace[1].jdbcUrl == Trim(url1) &&
      o.trace[0].username == Trim(u) && o.trace[1].username == Trim(u) &&
      o.trace[0].password == Trim(p0) && o.trace[1].password == Trim(p1)
  {
    var url, user, password := [url0, url1], [u], [p0, p1];
    BuildSucceeds(Some(2), url, user, password, externalStorage, driver);
    SlotSettings(Some(2), url, user, password, externalStorage, driver, 0);
    SlotSettings(Some(2), url, user, password, externalStorage, driver, 1);
  }

  /** Three slots and two URLs: slots 0 and 1 reach the callback, then
      `build` fails at index 2. */
  lemma ThreeSlotsTwoUrls(url0: string, url1: string, u: string, p: string,
                          externalStorage: Option<string>, driver: Option<string>)
    requires externalStorage.Some? && externalStorage.value != ""
    ensures var o := BuildOutcome(Some(3), [url0, url1], [u], [p], externalStorage, driver);
      o.result == Failure(UrlIsNull(2)) && |o.trace| == 2 &&
      o.trace[0].jdbcUrl == Trim(url0) && o.trace[1].jdbcUrl == Trim(url1)
  {
  }

  /** A blank URL is not rejected: its slot gets an empty JDBC URL. */
  lemma BlankUrlAccepted(blank: string, u: string, p: string,
                         externalStorage: Option<string>, driver: Option<string>)
    requires forall k :: 0 <= k < |blank| ==> IsTrimmed(blank[k])
    requires externalStorage.Some? && externalStorage.value != ""
    ensures var o := BuildOutcome(Some(1), [blank], [u], [p], externalStorage, driver);
      o.result.Success? && o.result.value[0].jdbcUrl == ""
  {
    TrimBlank(blank);
    BuildSucceeds(Some(1), [blank], [u], [p], externalStorage, driver);
    SlotSettings(Some(1), [blank], [u], [p], externalStorage, driver, 0);
  }
}
