/**
  `load_to_postgres`: over one connection, drop `prefect_table`, create it
  again empty, insert the dataset row by row, and commit once at the end.

  The database is abstracted to the one table: either absent or a sequence of
  rows. A connection sees its open transaction's version of the table; other
  sessions see the committed version, which only `Commit` changes. The table's
  schema is `Country_Currency varchar(250) NOT NULL, Currency_Code varchar(10)
  NOT NULL, Rate numeric NOT NULL`.
 */
module Loader {
  import opened Wrappers
  import opened Transform

  /** Width of `Country_Currency varchar(250)`. */
  const NAME_WIDTH: nat := 250
  /** Width of `Currency_Code varchar(10)`. */
  const CODE_WIDTH: nat := 10

  /** How the driver binds a dataset cell that holds no name. pandas leaves
      such a cell as a floating-point NaN; bound as SQL NULL it meets the
      NOT NULL constraint, bound as a float it reaches the varchar column as
      the text "NaN". */
  datatype Binding = NullForMissing | NaNTextForMissing

  /** The database errors a statement of the load can raise. */
  datatype SqlError =
    | NotNullViolation(column: string)
    | StringDataRightTruncation(column: string)
    | UndefinedTable
    | InFailedSqlTransaction

  /** The exception that ends a load: the insert of row `index` raised `cause`. */
  datatype LoadError = LoadError(index: nat, cause: SqlError)

  /** `prefect_table` as one session sees it. */
  datatype TableState<R> = Absent | Rows(rows: seq<Row<R>>)

  /** The SQL parameter a name cell becomes. */
  function BindName(cell: Option<string>, binding: Binding): (param: Option<string>)
    ensures cell.Some? ==> param == cell
    ensures cell.None? ==> (param.None? <==> binding == NullForMissing)
    ensures cell.None? && param.Some? ==> param.value == "NaN"
  {
    match cell
    case Some(name) => Some(name)
    case None => if binding == NullForMissing then None else Some("NaN")
  }

  /** The parameters of one `INSERT` for a dataset row. */
  function BindRow<R>(row: Row<R>, binding: Binding): (record: Row<R>)
    ensures record.currencyCode == row.currencyCode && record.rate == row.rate
    ensures record.countryCurrency == BindName(row.countryCurrency, binding)
  {
    Row(BindName(row.countryCurrency, binding), row.currencyCode, row.rate)
  }

  function BindAll<R>(df: seq<Row<R>>, binding: Binding): (records: seq<Row<R>>)
    ensures |records| == |df|
    ensures forall i :: 0 <= i < |df| ==> records[i] == BindRow(df[i], binding)
  {
    seq(|df|, i requires 0 <= i < |df| => BindRow(df[i], binding))
  }

  predicate AllSpaces(s: string) {
    forall k :: 0 <= k < |s| ==> s[k] == ' '
  }

  /** A string can be assigned to `varchar(width)`: it is short enough, or
      everything past the width is spaces. */
  predicate FitsVarchar(s: string, width: nat) {
    |s| <= width || AllSpaces(s[width..])
  }

  /** The value `varchar(width)` stores for a string that fits: the string
      itself, with the excess spaces cut off. */
  function ToVarchar(s: string, width: nat): (stored: string)
    requires FitsVarchar(s, width)
    ensures |stored| <= width && stored <= s
    ensures AllSpaces(s[|stored|..])
    ensures |s| <= width ==> stored == s
    ensures |s| > width ==> |stored| == width
  {
    if |s| <= width then s else s[..width]
  }

  /** A record every constraint of the table admits. */
  predicate Accepted<R>(record: Row<R>) {
    && record.countryCurrency.Some?
    && FitsVarchar(record.countryCurrency.value, NAME_WIDTH)
    && FitsVarchar(record.currencyCode, CODE_WIDTH)
  }

  /** The row one `INSERT` adds, or the error it raises. The values are
      converted to the column types first, in column order; the NOT NULL
      constraints are checked after that. */
  function Store<R>(record: Row<R>): (r: Result<Row<R>, SqlError>)
    ensures r.Ok? <==> Accepted(record)
    ensures r.Ok? ==> && r.value.countryCurrency.Some?
                      && |r.value.countryCurrency.value| <= NAME_WIDTH
                      && |r.value.currencyCode| <= CODE_WIDTH
                      && r.value.rate == record.rate
    ensures r.Ok? && |record.countryCurrency.value| <= NAME_WIDTH && |record.currencyCode| <= CODE_WIDTH
            ==> r.value == record
    ensures r.Ok? ==> r.value == Row(Some(ToVarchar(record.countryCurrency.value, NAME_WIDTH)),
                                     ToVarchar(record.currencyCode, CODE_WIDTH),
                                     record.rate)
    ensures record.countryCurrency.Some? && !FitsVarchar(record.countryCurrency.value, NAME_WIDTH)
            ==> r == Err(StringDataRightTruncation("country_currency"))
    ensures (record.countryCurrency.None? || FitsVarchar(record.countryCurrency.value, NAME_WIDTH))
            && !FitsVarchar(record.currencyCode, CODE_WIDTH)
            ==> r == Err(StringDataRightTruncation("currency_code"))
    ensures record.countryCurrency.None? && FitsVarchar(record.currencyCode, CODE_WIDTH)
            ==> r == Err(NotNullViolation("country_currency"))
  {
    if record.countryCurrency.Some? && !FitsVarchar(record.countryCurrency.value, NAME_WIDTH) then
      Err(StringDataRightTruncation("country_currency"))
    else if !FitsVarchar(record.currencyCode, CODE_WIDTH) then
      Err(StringDataRightTruncation("currency_code"))
    else if record.countryCurrency.None? then
      Err(NotNullViolation("country_currency"))
    else
      Ok(Row(Some(ToVarchar(record.countryCurrency.value, NAME_WIDTH)),
             ToVarchar(record.currencyCode, CODE_WIDTH),
             record.rate))
  }

  /** The inserts of a whole batch, in order: every stored row, or the first
      insert that raises. */
  function StoreAll<R>(records: seq<Row<R>>): (r: Result<seq<Row<R>>, LoadError>)
    ensures r.Ok? <==> forall i :: 0 <= i < |records| ==> Store(records[i]).Ok?
    ensures r.Ok? ==> && |r.value| == |records|
                      && forall i :: 0 <= i < |records| ==> Store(records[i]) == Ok(r.value[i])
    ensures r.Err? ==> && r.error.index < |records|
                       && Store(records[r.error.index]) == Err(r.error.cause)
                       && forall i :: 0 <= i < r.error.index ==> Store(records[i]).Ok?
  {
    if records == [] then Ok([])
    else
      match Store(records[0])
      case Err(e) => Err(LoadError(0, e))
      case Ok(row) =>
        match StoreAll(records[1..])
        case Ok(rows) => Ok([row] + rows)
        case Err(LoadError(k, e)) => Err(LoadError(k + 1, e))
  }

  /** The target database as every other session sees it. */
  class Database<R> {
    /** The committed state of `prefect_table`. */
    var table: TableState<R>

    constructor (table: TableState<R>)
      ensures this.table == table
    {
      this.table := table;
    }
  }

  /** A connection to the database with its open transaction. Every statement
      runs inside the transaction; once one has raised, PostgreSQL refuses the
      rest until the transaction ends. */
  class Connection<R> {
    const db: Database<R>
    const binding: Binding
    /** The table as this transaction sees it. */
    var working: TableState<R>
    /** A statement of the transaction has raised. */
    var aborted: bool

    /** `psycopg2.connect(...)`: no transaction work yet. */
    constructor Connect(db: Database<R>, binding: Binding)
      ensures this.db == db && this.binding == binding
      ensures working == db.table && !aborted
    {
      this.db := db;
      this.binding := binding;
      working := db.table;
      aborted := false;
    }

    /** `DROP TABLE IF EXISTS prefect_table`. */
    method DropTable() returns (outcome: Outcome<SqlError>)
      modifies this
      ensures aborted == old(aborted)
      ensures outcome == (if old(aborted) then Fail(InFailedSqlTransaction) else Pass)
      ensures working == (if old(aborted) then old(working) else Absent)
    {
      if aborted {
        return Fail(InFailedSqlTransaction);
      }
      working := Absent;
      return Pass;
    }

    /** `CREATE TABLE IF NOT EXISTS prefect_table (...)`: an empty table
        unless one is already there. */
    method CreateTable() returns (outcome: Outcome<SqlError>)
      modifies this
      ensures aborted == old(aborted)
      ensures outcome == (if old(aborted) then Fail(InFailedSqlTransaction) else Pass)
      ensures working == (if !old(aborted) && old(working).Absent? then Rows([]) else old(working))
    {
      if aborted {
        return Fail(InFailedSqlTransaction);
      }
      if working.Absent? {
        working := Rows([]);
      }
      return Pass;
    }

    /** `cursor.execute(insert_query, record)`: the bound record is appended
        to the table, or the statement raises and aborts the transaction. */
    method Insert(record: Row<R>) returns (outcome: Outcome<SqlError>)
      modifies this
      ensures aborted == (old(aborted) || outcome.Fail?)
      ensures outcome.Fail? ==> working == old(working)
      ensures old(aborted) ==> outcome == Fail(InFailedSqlTransaction)
      ensures !old(aborted) && old(working).Absent? ==> outcome == Fail(UndefinedTable)
      ensures !old(aborted) && old(working).Rows? ==>
                match Store(BindRow(record, binding))
                case Ok(row) => outcome == Pass && working == Rows(old(working).rows + [row])
                case Err(e) => outcome == Fail(e)
    {
      if aborted {
        return Fail(InFailedSqlTransaction);
      }
      match working
      case Absent =>
        aborted := true;
        return Fail(UndefinedTable);
      case Rows(rows) =>
        match Store(BindRow(record, binding))
        case Ok(row) =>
          working := Rows(rows + [row]);
          return Pass;
        case Err(e) =>
          aborted := true;
          return Fail(e);
    }

    /** `conn.commit()`: the transaction's table becomes the database's; a
        transaction that has raised is rolled back instead. */
    method Commit()
      modifies this, db
      ensures db.table == (if old(aborted) then old(db.table) else old(working))
      ensures working == db.table && !aborted
    {
      if !aborted {
        db.table := working;
      }
      working := db.table;
      aborted := false;
    }
  }

  /** `load_to_postgres(df, ...)`. On success the table holds exactly the
      stored form of every row of the dataset, in order, whatever it held
      before; when an insert raises, the exception ends the load before the
      commit and the committed table is what it was. */
  method LoadToPostgres<R>(db: Database<R>, df: seq<Row<R>>, binding: Binding) returns (outcome: Outcome<LoadError>)
    modifies db
    ensures match StoreAll(BindAll(df, binding))
            case Ok(rows) => outcome == Pass && db.table == Rows(rows)
            case Err(e) => outcome == Fail(e) && db.table == old(db.table)
  {
    var conn := new Connection.Connect(db, binding);
    // Errors of the two DDL statements are caught and only reported.
    var dropped := conn.DropTable();
    var created := conn.CreateTable();
    var names, codes, rates := NameColumn(df), CurrencyCodeColumn(df), RateValues(df);
    ghost var records := BindAll(df, binding);
    var i := 0;
    while i < |names|
      invariant 0 <= i <= |names| == |codes| == |rates| == |df|
      invariant conn.db == db && conn.binding == binding && !conn.aborted
      invariant db.table == old(db.table)
      invariant conn.working.Rows? && |conn.working.rows| == i
      invariant forall j :: 0 <= j < i ==> Store(records[j]) == Ok(conn.working.rows[j])
    {
      var record := Row(names[i], codes[i], rates[i]);
      assert record == df[i];
      var inserted := conn.Insert(record);
      if inserted.Fail? {
        assert Store(records[i]) == Err(inserted.error);
        var r := StoreAll(records);
        assert r.error.index == i;
        return Fail(LoadError(i, inserted.error));
      }
      i := i + 1;
    }
    conn.Commit();
    assert StoreAll(records).value == conn.working.rows;
    return Pass;
  }
}
