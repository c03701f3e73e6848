# Relational ingestion of the US Airbnb listings, in Dafny

This project models the ingestion script `sql_insertion.py`. The script loads
the listings file into a normalised SQL Server schema of four tables: host,
location, reviews and accommodation. The script does the following, in order:

1. It opens a connection with autocommit off.
2. It coerces every column to its type ("Clean Data").
3. It deduplicates the host triples and MERGEs each one into `host`, matching on
   `host_id` only. A failing MERGE is followed by a rollback.
4. It deduplicates the location keys and the review triples. It inserts each
   one once and reads the generated id back into a dictionary.
5. It turns every row into an accommodation tuple that carries the resolved
   `location_id` and `review_id`.
6. It inserts all the tuples with one `executemany`. It rolls back if that
   raises a driver error, and commits in a `finally`.

The model has one module per component:

- `Records` holds the raw and clean rows, the per-row coercion, the whole-table
  "Clean Data" step, the natural keys and the 32-bit `host_id` cast.
- `Distinct` is `drop_duplicates`: the first occurrence of each value, in row
  order.
- `Store` is the database behind the connection. Its class `Connection` has a
  committed state, a list of pending (uncommitted) writes and the identity
  counters of the location and review tables. MERGE, INSERT … OUTPUT, the bulk
  insert, rollback and commit are methods that change this state.
- `Hosts` is the MERGE loop and its rollback-on-error behaviour.
- `Resolve` holds the two insert-and-read-back loops that fill
  `location_mapping` and `review_mapping`.
- `Accommodations` is the loop that builds `accommodation_data`, with its skip
  branch.
- `Ingestion` is the whole run, from raw rows to the committed database.

Store failures are inputs, not behaviour of the model (`Ingestion.Faults`):
- a set of host-loop positions whose MERGE raises;
- a set of positions for the location loop, and one for the review loop,
  whose insert raises;
- how the bulk insert ends: it succeeds; it raises a driver error, which the
  handler catches; or it raises another exception, which no handler catches.
  A failing bulk insert also says how many tuples reached the store first.

A numeric cell arrives as the outcome of its parser: missing, malformed, or a
value. The textual conversions themselves are not modelled.

Behaviour of the code worth noting:
- Hosts are deduplicated on the full (host_id, host_name, listings_count)
  triple. The MERGE then matches on host_id alone.
- A failing location or review insert is not caught. It ends the run, and
  the open transaction is discarded with the connection. It is not skipped
  row by row.
- A malformed count makes the whole column conversion raise. The row is not
  rejected on its own.
- The accommodation tuples go to the store in one `executemany`. There are no
  batches and no worker pool.
- The handler around the bulk insert catches only driver errors. Any other
  exception skips the rollback, so the commit in `finally` makes the run's
  hosts, locations, reviews and the tuples already sent durable, and the
  exception then leaves the script.

## Model

| member | source | states |
|---|---|---|
| `Records.WrapInt32` | sql_insertion.py:45 | The `int32` cast of `host_id` lands in [-2^31, 2^31), differs from the input by a multiple of 2^32, and is the identity on values that already fit. |
| `Records.NormalizeRow` | sql_insertion.py:31-49 | A row converts iff every column whose conversion raises holds a value, and the review rate is not malformed. The text columns and the integer columns carry over unchanged, and `host_id` is cast to 32 bits. |
| `Records.NormalizeDefaults` | sql_insertion.py:31-48 | A price that parses keeps its value, and one that is absent or does not parse becomes 0. A present review rate keeps its value, and an absent one becomes 0, so no review triple holds a missing rate. |
| `Records.CleanData` | sql_insertion.py:30-49 | The table is cleaned iff every row converts. Then the result has one clean row per input row, in order, each the coercion of its raw row. |
| `Distinct.Dedup` | sql_insertion.py:82-83 | The result has no repeats and is never longer than the input. |
| `Distinct.DedupSameValues` | sql_insertion.py:82-83 | Every input value occurs in the result, and the result holds nothing else. |
| `Distinct.DedupFirstSeenOrder` | sql_insertion.py:82-83 | Values appear in the order of their first occurrence in the rows. |
| `Distinct.DedupOfDistinct` | sql_insertion.py:82-83 | A sequence without repeats is returned unchanged. |
| `Distinct.DedupIdempotent` | sql_insertion.py:82-83 | Dropping duplicates a second time changes nothing. |
| `Store.Connection.constructor` | sql_insertion.py:24 | A connection with autocommit off starts with nothing pending over the existing database. |
| `Store.Connection.MergeHost` | sql_insertion.py:65-72 | The MERGE adds the triple only when its host_id is not yet visible, and otherwise writes nothing. A raising MERGE writes nothing. Nothing is committed. |
| `Store.Connection.InsertLocation` | sql_insertion.py:89-94 | A successful insert returns the next identity value, which is above every existing location id. It adds exactly that row to the pending writes. |
| `Store.Connection.InsertReview` | sql_insertion.py:101-106 | Likewise for a review record. |
| `Store.Connection.InsertAccommodations` | sql_insertion.py:137-143 | The bulk insert appends all the tuples, in order. When it raises, it appends only the tuples sent before the failing one. Nothing is committed. |
| `Store.Connection.Rollback` | sql_insertion.py:150 | Every pending write is discarded, and the visible state is the committed one again. Identity values already handed out are not reused. |
| `Store.Connection.Commit` | sql_insertion.py:152 | The visible state becomes the committed state, and nothing stays pending. |
| `Hosts.MergeHosts` | sql_insertion.py:63-78 | After the loop, the visible state is `HostLoop` of the triples: each MERGE in turn, and on a raised error a rollback to the committed state, after which the loop goes on. Nothing is committed. |
| `Hosts.MergeWithoutFailure` | sql_insertion.py:63-71 | Without failures, a host_id already visible keeps its row. A new host_id gets the first triple in row order that carries it. No other table changes. |
| `Hosts.LastRollbackWins` | sql_insertion.py:73-78 | A rollback erases every earlier merge of the run. The result is that of merging, into the committed state, only the triples after the last failing one. |
| `Hosts.HostLoopKeepsCommitted` | sql_insertion.py:65-71 | A host_id already committed keeps its committed row, whatever fails. |
| `Hosts.HostLoopTouchesHostsOnly` | sql_insertion.py:63-78 | The host loop changes no table but `host`. |
| `Resolve.ResolveLocations` | sql_insertion.py:87-95 | If no insert raises, the dictionary is `KeyIndex` of the keys from the first id handed out. The location table gains `Numbered` of the keys, one fresh id per insert. The loop succeeds iff no position below the number of keys fails. |
| `Resolve.ResolveReviews` | sql_insertion.py:99-107 | The same for review triples and `review_mapping`. |
| `Resolve.NumberedSpec` | sql_insertion.py:88-94 | The inserted rows occupy exactly the consecutive ids from the first one handed out, with the j-th key under the j-th id. |
| `Resolve.KeyIndexSound` | sql_insertion.py:88-95 | The dictionary's keys are exactly the inserted keys. Each key is bound to an id generated by the loop whose inserted row holds that key. |
| `Resolve.KeyIndexIsInverse` | sql_insertion.py:100-107 | Distinct keys are bound to distinct ids. When the keys are distinct, the j-th key is bound to the j-th generated id. |
| `Resolve.FreshRows` | sql_insertion.py:89-94 | Adding the inserted rows above the existing ids keeps every existing row. It gives each distinct key exactly one new row. |
| `Accommodations.BuildAccommodations` | sql_insertion.py:112-130 | The loop builds `Join` of the rows: one tuple per resolved row, in row order. |
| `Accommodations.JoinSound` | sql_insertion.py:113-130 | Every tuple comes from a row whose two keys are both in the dictionaries. It carries exactly the ids those keys map to, so no foreign key dangles. |
| `Accommodations.JoinLength` | sql_insertion.py:119-132 | The list is never longer than the rows. It is exactly as long iff no row is skipped, that is iff every row's keys resolve. |
| `Accommodations.JoinAppend` | sql_insertion.py:112-130 | The loop handles rows in order. The list for two runs of rows is the list for the first followed by the list for the second. |
| `Accommodations.JoinComplete` | sql_insertion.py:116-130 | A row whose two keys both resolve yields its tuple, with exactly the ids its keys map to. The tuple sits between those of the rows before it and those of the rows after it. |
| `Accommodations.JoinTotal` | sql_insertion.py:112-130 | When every row resolves, tuple i is row i with `location_mapping[loc_key]` and `review_mapping[rev_key]`. |
| `Accommodations.SameTripleSameReview` | sql_insertion.py:115-117 | Two rows with the same review triple get the same review id, whatever listings they describe. |
| `Ingestion.Ingest` | sql_insertion.py:24-152 | The run reports a conversion failure iff the cleaning fails. It aborts iff a location or review insert raises. It is rolled back iff the inserts succeed and the bulk insert raises a driver error. It escapes iff the inserts succeed and the bulk insert raises any other exception. A conversion failure, an abort or a rollback leaves the committed database unchanged, host merges included. A committed run persists `IngestedDb` and reports one accommodation per input row. An escaped run persists `EscapedDb`: everything but the accommodations not yet sent. |
| `Ingestion.IngestRows` | sql_insertion.py:52-152 | The same outcomes and committed states, for a table that is already clean. |
| `Ingestion.LoadDimensions` | sql_insertion.py:52-107 | It succeeds iff no location or review insert raises. Then the dictionaries are `KeyIndex` of the deduplicated keys, and the visible state is that of `IngestedDb` without the new accommodations. Otherwise nothing is pending. The committed state never changes. |
| `Ingestion.InsertAndCommit` | sql_insertion.py:134-152 | A successful bulk insert commits every pending write plus all tuples. A driver error rolls back, so the committed state is unchanged. Any other exception commits every pending write and the tuples sent before the failure. |
| `Ingestion.EscapedCommitsRunWrites` | sql_insertion.py:136-152 | An escaped run commits the same host, location and review tables as a committed run. It keeps only the first tuples of its accommodation list, as many as were sent. |
| `Ingestion.EveryRowResolved` | sql_insertion.py:82-119 | The dictionaries built from the deduplicated keys of the same rows cover every row, so the skip branch is unreachable. |
| `Ingestion.JoinCoversRows` | sql_insertion.py:112-132 | With the dictionaries the run builds, the accommodation list has one tuple per row. |
| `Ingestion.JoinReferencesFreshRows` | sql_insertion.py:112-130 | Each tuple the run builds carries its row's data. Its ids name generated rows holding exactly that row's keys. |
| `Ingestion.IngestedRowsReferenceTheirKeys` | sql_insertion.py:112-152 | A committed run appends one accommodation per row, in row order, carrying that row's data. Its location_id and review_id name freshly generated rows that hold exactly that row's location key and review triple. |
| `Ingestion.IngestedKeepsCommitted` | sql_insertion.py:65-95 | A committed run leaves every previously committed host, location, review and accommodation row as it was. |
| `Ingestion.IngestedOneLocationPerKey` | sql_insertion.py:82-95 | The new location rows hold the rows' keys, no two hold the same key, and every row's key is held by one of them. |
| `Ingestion.IngestedOneReviewPerTriple` | sql_insertion.py:83-107 | The same for review records: one new row per distinct review triple. |

## Left out

- Loading `.env`, the ODBC connection string, opening the connection and
  reading the CSV file (sql_insertion.py:7-28) are I/O. The model starts from
  the rows as read and from a `Connection` over an existing database.
- The SQL text and the driver are replaced by an abstract store. That store
  has tables as maps keyed by id, a list of pending writes, and per-table
  identity counters. Table constraints are not part of this source, so why
  the bulk insert fails is a parameter.
- Generated ids are modelled as consecutive values of a per-table counter.
  SQL Server promises only fresh, increasing identity values. Several
  contracts state the exact consecutive ids, not just their freshness:
  - `Store.Connection.InsertLocation` and `Store.Connection.InsertReview`
    (the id returned is the counter);
  - `Resolve.ResolveLocations` and `Resolve.ResolveReviews`, through
    `KeyIndex` and `Numbered` from the first id;
  - `Resolve.NumberedSpec`, `Resolve.KeyIndexIsInverse` and `Resolve.FreshRows`;
  - `Ingestion.Ingest`, through `IngestedDb` and `EscapedDb`.
  A store whose identity values have gaps is not modelled.
- Float semantics are not modelled. Latitude, longitude and the review rate are
  exact reals, compared for equality. A missing coordinate, which pandas reads
  as NaN, is not modelled: a coordinate either converts or makes the
  conversion raise. With NaN keys, dictionary lookups and the inserts would
  behave differently.
- The textual conversions of pandas (`to_numeric`, `astype`) are abstract. A
  numeric cell arrives as missing, malformed or a parsed value. The truncation
  of fractional values by `astype(int)` and the 64-bit width of the other
  integer columns are not modelled. Only the 32-bit cast of `host_id` is.
- Printing and timing (sql_insertion.py:10, 62, 74, 77, 132, 135, 145-149,
  159-161) are left out. So are the two message branches of the bulk-insert
  handler, which differ only in what they print.
- `cursor.close()` and `conn.close()` after the commit (sql_insertion.py:155-156)
  have no effect on the data, because nothing is pending then. The commit
  itself is assumed not to fail.
- How many tuples a failing bulk insert sent first is an input. Which row
  fails, and why, depends on table constraints that are not in this source.
- When a location or review insert raises, the process ends and the driver
  discards the open transaction. The model represents this as a rollback
  followed by the `Aborted` outcome.
- mongo_insertion.py, mongo_performance.py and sql_performance.py are not
  part of this model. They hold document-store loading, index creation and
  analytical queries run by the database engines.
