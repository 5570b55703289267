/** `DynamicDataSourceServiceFactory.selectDataSource`: the dialect-specific
    service chosen by database name. */
module ServiceFactory {
  import opened Wrappers
  import opened Text
  import DataSourceEnum

  /** The `DataSourceEnum.DataSourceName` constants the switch names. */
  const DamengName: string := "DAMENG"
  const OracleName: string := "ORACLE"
  const MysqlName: string := "MYSQL"

  /** The service implementations, `DmDataSourceServiceImpl`,
      `OracleDataSourceServiceImpl` and `MysqlDataSourceServiceImpl`. */
  datatype DataSourceService = DmService | OracleService | MysqlService

  /** `toUpperCase` on a null name throws. */
  datatype SelectError = NullPointer

  /** `selectDataSource`: upper-case the name, then DAMENG and ORACLE get
      their own service and every other name, MYSQL included, the MySQL one. */
  function SelectDataSource(dbName: Option<string>): (r: Result<DataSourceService, SelectError>)
    ensures r.Failure? <==> dbName.None?
  {
    if dbName.None? then Failure(NullPointer)
    else
      var name := Upper(dbName.value);
      if name == DamengName then Success(DmService)
      else if name == OracleName then Success(OracleService)
      else Success(MysqlService)
  }

  /** The names the switch compares with are the names of the DAMENG,
      ORACLE and MYSQL constants. */
  lemma SwitchNamesAreConstantNames()
    ensures DamengName == DataSourceEnum.ConstantName(DataSourceEnum.Dameng)
    ensures OracleName == DataSourceEnum.ConstantName(DataSourceEnum.Oracle)
    ensures MysqlName == DataSourceEnum.ConstantName(DataSourceEnum.Mysql)
  {
  }

  /** Each service is chosen for exactly the names it is listed under,
      ignoring case; the MySQL service for every other non-null name. */
  lemma SelectionIff(dbName: string)
    ensures SelectDataSource(Some(dbName)) == Success(DmService) <==> EqualsIgnoreCase(dbName, "DAMENG")
    ensures SelectDataSource(Some(dbName)) == Success(OracleService) <==> EqualsIgnoreCase(dbName, "ORACLE")
    ensures SelectDataSource(Some(dbName)) == Success(MysqlService) <==>
      !EqualsIgnoreCase(dbName, "DAMENG") && !EqualsIgnoreCase(dbName, "ORACLE")
  {
    assert Upper("DAMENG") == DamengName;
    assert Upper("ORACLE") == OracleName;
  }

  /** "MYSQL", an unlisted name such as "POSTGRESQL", and the empty name go
      to the MySQL service through the default branch. */
  lemma DefaultBranch()
    ensures SelectDataSource(Some("MYSQL")) == Success(MysqlService)
    ensures SelectDataSource(Some("mysql")) == Success(MysqlService)
    ensures SelectDataSource(Some("POSTGRESQL")) == Success(MysqlService)
    ensures SelectDataSource(Some("")) == Success(MysqlService)
  {
    assert Upper("mysql") == "MYSQL";
  }

  /** The choice depends only on the upper-cased name. */
  lemma SelectionIgnoresCase(dbName: string)
    ensures SelectDataSource(Some(Upper(dbName))) == SelectDataSource(Some(dbName))
    ensures SelectDataSource(Some(Lower(dbName))) == SelectDataSource(Some(dbName))
  {
    UpperIdempotent(dbName);
    CaseAbsorbs(dbName);
  }

  /** The switch agrees with the dialect catalog: a name selects the DM
      service exactly when it resolves to DAMENG by product name, and the
      Oracle service exactly when it resolves to ORACLE. */
  lemma SelectionAgreesWithProductName(dbName: string)
    ensures SelectDataSource(Some(dbName)) == Success(DmService) <==>
      DataSourceEnum.FromProductName(Some(dbName)) == DataSourceEnum.Dameng
    ensures SelectDataSource(Some(dbName)) == Success(OracleService) <==>
      DataSourceEnum.FromProductName(Some(dbName)) == DataSourceEnum.Oracle
  {
    SelectionIff(dbName);
    UpperIdempotent(dbName);
    if EqualsIgnoreCase(dbName, "DAMENG") {
      DataSourceEnum.ProductNameRoundTrip(DataSourceEnum.Dameng, dbName);
    }
    if EqualsIgnoreCase(dbName, "ORACLE") {
      DataSourceEnum.ProductNameRoundTrip(DataSourceEnum.Oracle, dbName);
    }
    if DataSourceEnum.FromProductName(Some(dbName)) == DataSourceEnum.Dameng {
      DataSourceEnum.ResolvedConstantAccepts(dbName, DataSourceEnum.Dameng);
    }
    if DataSourceEnum.FromProductName(Some(dbName)) == DataSourceEnum.Oracle {
      DataSourceEnum.ResolvedConstantAccepts(dbName, DataSourceEnum.Oracle);
    }
  }
}
