# Exchange-rate ETL: a Dafny model of its deterministic core

The pipeline in `venv/Scripts/etl_prefect.py` fetches exchange rates from an
HTTP API, turns the JSON payload into a dataset of rows
`(Country_Currency, Currency_Code, Rate)`, and loads the rows into the
PostgreSQL table `prefect_table`, which it drops and recreates on every run.
This project models the three parts of it whose behaviour is exact:

- **Fetcher** (`fetcher.dfy`): the request URL that `retrieve_from_api` builds.
  The scheme is `https` when `secure` holds and `http` otherwise. The base,
  the endpoint and the `access_key` query parameter follow, concatenated with
  no encoding.
- **Transform** (`transform.dfy`): `transform_json_to_dataframe` as functions
  on values. The payload's `rates` member is missing, a JSON object (a
  sequence of code/rate pairs with distinct codes, in the object's order), or
  some other JSON value. The dataset is a sequence of `Row`s. The rate is a
  type parameter, because nothing computes with it. The dataset is built the
  way pandas builds it: a code column and a rate column, a name column mapped
  from the codes, then the three zipped by index.
- **Loader** (`loader.dfy`): `load_to_postgres` as imperative code. A
  `Database` object holds the committed state of `prefect_table`, absent or
  a sequence of rows. A `Connection` holds its open transaction's view of the
  table and whether a statement has raised. The methods `DropTable`,
  `CreateTable`, `Insert` and `Commit` change that state. `LoadToPostgres`
  runs the drop, the create, one insert per row in a loop, and one commit.
  The schema's constraints decide what an insert stores or raises:
  `varchar(250)`, `varchar(10)` and `NOT NULL`.
- **Pipeline** (`pipeline.dfy`): lemmas that follow the transformer's dataset
  into the loader.

A cell with no name leaves pandas as a floating-point NaN, and how the driver
binds it is outside this model. So the loader takes the binding as a
parameter. `NullForMissing` is the reading in which the `NOT NULL` column
rejects the row, so a code missing from the mapping keeps the batch from
being committed. `NaNTextForMissing` is the reading in which the float
reaches the `varchar` column as the text `NaN`. The libraries point to the
second reading: `Series.map` leaves a NaN float, `to_list()` keeps it,
psycopg2 renders it as `'NaN'::float`, and PostgreSQL's assignment cast to a
string type stores the text `NaN`. So the lemmas under `NullForMissing`
describe a binding this script most likely does not use.

Facts about the source that the model follows:

- The name column is `varchar(250) NOT NULL` (line 110).
- The drop, the create and the inserts run in one transaction. The
  connection is not in autocommit mode, and PostgreSQL DDL is
  transactional. So a load that fails before `conn.commit()` leaves the
  committed table as it was.
- A `rates` value that is present but is not an object (for example `null`)
  makes `.items()` raise.
- When a record breaks more than one constraint, the error reported is the
  first column whose value does not fit, in column order, and only then a
  NOT NULL violation. This follows the order in which PostgreSQL converts
  values and then checks constraints; `Loader.Store`'s contract states it.

## Model

| member | source | states |
|---|---|---|
| `Fetcher.RequestUrl` | venv/Scripts/etl_prefect.py:20-23 | the URL starts with the flag's scheme, `://` and the base; it ends with `/`, the endpoint, `?access_key=` and the key; its length is the sum of the parts |
| `Fetcher.SecureIffHttps` | venv/Scripts/etl_prefect.py:20-23 | the URL starts with `https://` if and only if `secure` holds |
| `Fetcher.SchemesDifferOnlyInPrefix` | venv/Scripts/etl_prefect.py:20-23 | the secure and the plain URL for the same request are `https` and `http` followed by the same text |
| `Fetcher.RequestUrlInjective` | venv/Scripts/etl_prefect.py:20-23 | for a fixed base and endpoint, equal URLs mean equal access keys and equal transport flags |
| `Fetcher.BaseAndEndpointNotDelimited` | venv/Scripts/etl_prefect.py:21 | for every base, middle part, endpoint, key and flag, the parts are not delimited: base `b/x` with endpoint `e` gives the same URL as base `b` with endpoint `x/e` |
| `Transform.RateItems` | venv/Scripts/etl_prefect.py:37-39 | `data.get('rates', {}).items()`: no `rates` gives no pairs, an object gives its pairs in order, any other value raises `AttributeError` |
| `Transform.Lookup` | venv/Scripts/etl_prefect.py:43 | `Series.map` with a dict on one code: a name exactly when the code is a key, and then the key's value; never an error |
| `Transform.FrameOf` | venv/Scripts/etl_prefect.py:39-44 | one row per pair in order, each with the pair's code and rate and the code's looked-up name |
| `Transform.TransformJsonToDataframe` | venv/Scripts/etl_prefect.py:35-45 | fails exactly when `rates` is present and not an object, so neither a missing `rates` nor an unmapped code raises; no `rates` gives no rows; an object gives one row per entry (row contents in `Transform.TransformRows`) |
| `Loader.BindName` | venv/Scripts/etl_prefect.py:126 | a present name is passed as it is; a missing one becomes SQL NULL under `NullForMissing` and the text `NaN` under `NaNTextForMissing` |
| `Loader.BindRow` | venv/Scripts/etl_prefect.py:125-126 | the bound record keeps the code and the rate and carries the bound name |
| `Loader.BindAll` | venv/Scripts/etl_prefect.py:124-126 | one bound record per dataset row, record i bound from row i |
| `Transform.FrameOfRowAt` | venv/Scripts/etl_prefect.py:39-44 | the column-wise construction has one row per pair; row i is (mapped name, code, rate) of the i-th pair, in that column order |
| `Transform.TransformRows` | venv/Scripts/etl_prefect.py:35-45 | as many rows as entries, in order; row i carries entry i's code and rate unchanged, and it has a name exactly when the code is a key of the mapping, that key's value |
| `Transform.ExactlyOneRowPerCode` | venv/Scripts/etl_prefect.py:39-43 | with distinct codes, each entry's code appears in exactly one row, the entry's own, with its rate |
| `Transform.ColumnsRoundTrip` | venv/Scripts/etl_prefect.py:119-125 | splitting the dataset into its three column lists and zipping them by index gives back the same rows |
| `Transform.ZipRoundTrip` | venv/Scripts/etl_prefect.py:119-125 | zipping three equally long columns and splitting the result gives back the columns |
| `Transform.TwoMappedCurrencies` | venv/Scripts/etl_prefect.py:35-45 | `{USD: 1.0, EUR: 0.92}` with both codes mapped gives the two named rows in payload order |
| `Transform.UnmappedCurrency` | venv/Scripts/etl_prefect.py:43 | `{XXX: 5.5}` with `XXX` unmapped gives one row with no name, not an error |
| `Loader.ToVarchar` | venv/Scripts/etl_prefect.py:110-111 | the stored string is a prefix of the given one missing only trailing spaces: the string itself when it is no longer than the width, otherwise exactly its first `width` characters |
| `Loader.Store` | venv/Scripts/etl_prefect.py:108-113 | an insert succeeds if and only if the name is present and both strings fit their columns; the stored row is the record with each string as its column stores it and the rate unchanged, so the record itself when it fits; a name that does not fit raises a truncation error on `country_currency`, otherwise a code that does not fit raises one on `currency_code`, otherwise a missing name raises a NOT NULL violation |
| `Loader.StoreAll` | venv/Scripts/etl_prefect.py:124-126 | the batch succeeds if and only if every insert does, storing row i from record i; otherwise it reports the first insert that raises, at its index, with its error |
| `Loader.Connection.Connect` | venv/Scripts/etl_prefect.py:95-101 | a new connection sees the committed table and has no failed statement |
| `Loader.Connection.DropTable` | venv/Scripts/etl_prefect.py:107 | the transaction's table becomes absent; in a failed transaction the statement raises and changes nothing |
| `Loader.Connection.CreateTable` | venv/Scripts/etl_prefect.py:108-114 | an absent table becomes empty and an existing one is kept (`IF NOT EXISTS`); in a failed transaction the statement raises and changes nothing |
| `Loader.Connection.Insert` | venv/Scripts/etl_prefect.py:123-126 | the bound record's stored row is appended, or the statement raises (no table, a constraint, a failed transaction), leaves the rows as they were and marks the transaction failed |
| `Loader.Connection.Commit` | venv/Scripts/etl_prefect.py:128 | the transaction's table becomes the committed one; a failed transaction is rolled back instead |
| `Loader.LoadToPostgres` | venv/Scripts/etl_prefect.py:85-128 | on success the committed table is exactly the stored rows of the dataset in order, whatever it held before; if an insert raises, the load fails with that row's index and error and the committed table is unchanged |
| `Pipeline.UnmappedCodeBlocksLoad` | venv/Scripts/etl_prefect.py:110-128 | with NULL binding, a code missing from the mapping (line 43) makes an insert at or before its row raise, so nothing is committed |
| `Pipeline.FirstUnmappedCodeReported` | venv/Scripts/etl_prefect.py:110-128 | with NULL binding, when every row before the first unmapped code is mapped and fits its columns and that code fits its column, the load fails at that code's row with a NOT NULL violation, whatever the later rows hold |
| `Pipeline.NaNTextLoadsEveryFittingRow` | venv/Scripts/etl_prefect.py:119-128 | with NaN-text binding, when every row fits its columns, the whole dataset is committed, unmapped rows with the name `NaN` |
| `Pipeline.MappedRatesLoadExactly` | venv/Scripts/etl_prefect.py:119-128 | when every code is mapped and fits, the committed table equals the dataset, under either binding |
| `Pipeline.CommittedRowsMatchRates` | venv/Scripts/etl_prefect.py:119-128 | a committed load has one row per entry of `rates` in order with the entry's rate, its code when the code fits, its mapped name when that fits; with NULL binding every code was mapped |

## Left out

- The HTTP request, `raise_for_status` and JSON decoding (lines 26-28) are network I/O in a foreign library. The decoded payload is an input value.
- Logging and `print` diagnostics are side effects with no behaviour to verify.
- `create_database` (lines 51-82) is server-level DDL in autocommit mode with swallowed errors. The model's database is the one table, so it has no state for this step.
- Connection parameters, `cursor.close()` and `conn.close()` are not modelled, and neither is an exception from `psycopg2.connect` (lines 95-101), raised for example when the error `create_database` swallowed left no `db_prefect` database. The implicit rollback when the connection is dropped without a commit is not modelled either; the model's committed table is simply never changed on that path.
- Failures of the drop and the create on a real server are left out: a dependent view without CASCADE, a role that does not own the table, a lock timeout. The model's database holds only this one table, with no dependents and no privileges, so there its DDL fails only inside a failed transaction. The `except` at lines 116-117 would swallow such an error, after which every insert raises `InFailedSqlTransaction` and, for an empty dataset, `conn.commit()` silently rolls back. `LoadToPostgres` ignores the DDL outcome just as the source continues past it.
- Other sessions' concurrent access to the table is not modelled. The pipeline assumes one run at a time.
- How psycopg2 binds pandas' NaN is foreign code. It is a parameter (`Binding`), not a fixed choice; `NaNTextForMissing` is the likely real behaviour.
- The `Rate` column's conversion of a float to `numeric` and non-finite or null rates are left out. The rate is opaque and stored unchanged.
- The Prefect `@task`/`@flow` decorators, the deployment imports and `etl_flow`'s defaults and credentials (lines 135-156) are orchestration and configuration.
- The decoded body `data` is taken to be a JSON object, as its annotation `data: dict` declares. An array or `null` body would make `data.get` (line 37) raise `AttributeError`, and `Payload` cannot express one.
- The content of `Scripts.country_mappings.currency_mapping` is not part of this model. The mapping is a `map<string, string>` parameter.
