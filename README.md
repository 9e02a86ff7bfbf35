# rep2ib replication engine, modelled in Dafny

rep2ib copies tables from a PostgreSQL database into an Iceberg catalog.
For every table listed in its configuration document, it does the following:

- reads the table specification: namespace, name, optional column list, filter, batch size, target and incremental cursor;
- resolves the table's columns against the PostgreSQL catalog, mapping each column type to an Arrow type and, where needed, rewriting the select expression;
- escapes column names that are reserved words or hold special characters;
- builds the extraction query and the pre-scan count query;
- fetches the rows in batches of at most the batch size;
- routes every batch to the destination session:
  - REPLACE recreates the table first and then appends;
  - OVERWRITE overwrites the first batch and appends the rest. When loading the table for that overwrite raises, the next batch is overwritten instead. When the overwrite's own write fails, the batch is dumped and the call returns normally, so the later batches are appended to the rows the table already had;
  - UPSERT calls the placeholder upsert;
  - APPEND and READONLY append.

An incremental table's cursor value in the configuration advances to the pre-scanned maximum only when the fetch loop runs to its end without an exception.

The model has one module per source file, plus two shared modules, `Types` and `Text`:

- `Types` holds the values that pass between the components: the error, option and result wrappers, SQL values and rows, and the Arrow types, fields, schemas and batches.
- `Text` covers the Python string operations the engine relies on: `strip`, `split`, `join`, `upper`, `lower` and `str(int)`.
- `Helper` covers the access modes, their parsing, and the destination `Table` record.
- `Rdb` covers the specification defaults, the `RDBSource` and `RDBTable` classes, and the extraction query.
- `Postgres` covers escaping, type mapping, schema resolution, the cursor predicate, the catalog and count queries, the fetch loop, and the `PGTable` class.
- `Iceberg` models the catalog as a map from identifier to schema and rows. Its `IBSession` class has the create, recreate, append, overwrite, upsert, alter and dump operations.
- `Main` models the run loop twice:
  - as functions (`Step`, `Route`, `TableRun`, `RunAll`), about which the routing properties are proved;
  - as methods (`RouteBatches`, `ReplicateTable`, `Replicate`) that update the session and the configuration in place, proved equal to those functions.

The database, the catalog and the files are not called. What they answer is an input:

- the catalog rows, or the error of the catalog query;
- the pre-scan result;
- the rows of the extraction query;
- the batch at which a fetch raises;
- per batch, whether loading or writing the destination table raises;
- the reserved-word set and the type-mapping table.

Behaviours modelled as the code has them:

- a target without `access_mode` is OVERWRITE;
- READONLY tables are appended to;
- only `time`, `timez`, `timestamp` and `timestampz` get the `to_char` rewrite, so `timestamptz` and `timetz` fall through to the text cast with a warning;
- dates are rewritten with `tochar`;
- escaping does not double embedded quotes, so it is not idempotent;
- string cursor values are quoted without escaping;
- the incremental count query puts the cursor predicate before the filter;
- the full-table count query's filter is not parenthesised.

An exception while a table is built from its specification (main.py:42) or while its target is parsed (main.py:43) is not caught, and it ends the run; `RunAll` stops at the first such error.

## Model

| member | source | states |
|---|---|---|
| Text.Strip | source/rdb.py:57-58 | the stripped text is no longer than the input and neither starts nor ends with white space |
| Text.StripLeft | source/rdb.py:57-58 | exactly a prefix of white space is removed, and the rest is a suffix of the input not starting with white space |
| Text.StripRight | source/rdb.py:57-58 | exactly a suffix of white space is removed, and the rest is a prefix of the input not ending with white space |
| Text.StripIdempotent | source/rdb.py:57-58 | stripping a stripped name changes nothing |
| Text.Split | source/rdb.py:80 | splitting on a comma gives at least one piece, and no piece contains a comma |
| Text.JoinSplit | source/rdb.py:80 | joining the pieces of a split with the separator gives back the text |
| Text.SplitJoin | source/rdb.py:80 | splitting a join of comma-free pieces gives back the pieces |
| Text.Join | source/rdb.py:152 | `sep.join`: the pieces with the separator between neighbours; its inverse is stated by JoinSplit and SplitJoin |
| Text.Spaced | source/postgres.py:127 | one piece per input piece, each after the first preceded by a space |
| Text.JoinCommaSpace | source/postgres.py:127 | joining with `, ` is joining with `,` the pieces spaced after the first |
| Text.Upper | helper.py:94 | upper-casing keeps the length and maps each character on its own |
| Text.Lower | source/postgres.py:296 | lower-casing keeps the length and maps each character on its own |
| Text.UpperOfLower | helper.py:94 | an upper-case word in lower case upper-cases back to itself |
| Text.NatDigits | source/rdb.py:20 | a natural number renders as at least one decimal digit |
| Text.DecimalString | source/rdb.py:20 | an integer renders as an optional minus sign and decimal digits |
| Text.DecimalStringRoundTrip | source/rdb.py:20 | the decimal rendering of an integer parses back to the integer |
| Helper.ModeName | helper.py:51-56 | the enumeration member name of each of the five modes |
| Helper.AccessModeFromString | helper.py:91-96 | a mode is returned exactly when its name equals the upper-cased text; otherwise ValueError "Invalid access mode string" followed by the text |
| Helper.AccessModeRoundTrip | helper.py:51-56 | each of the five mode names parses back to its mode, in upper case and in lower case |
| Helper.AccessModeCaseInsensitive | helper.py:91-94 | two texts with the same upper-case form parse to the same mode or both fail |
| Helper.Table.constructor | helper.py:58-81 | the accessors return the constructor arguments, the access mode defaults to READONLY, and the columns list is empty |
| Helper.Table.SetColumns | helper.py:83-89 | the setter replaces the columns and changes no other field |
| Rdb.Exprs | source/rdb.py:152 | the projection lists each schema entry's expression, in schema order |
| Rdb.InitialSchema | source/rdb.py:79-82 | with `columns`, one stripped untyped entry per comma-separated piece, in order; without it, exactly the wildcard `*` |
| Rdb.ColumnListRoundTrip | source/rdb.py:79-80 | a list of stripped, comma-free names written as `columns` yields those names as the projection |
| Rdb.InitialFilter | source/rdb.py:84-87 | the filter is the stripped `filter_exp`, or empty when absent |
| Rdb.SpecBatchSize | source/rdb.py:111-117 | the batch size is the specification's value when present, else 10000 |
| Rdb.TargetName | source/rdb.py:122-125 | the target name is the target's `name` when present, else the source table's name |
| Rdb.TargetAccessMode | source/rdb.py:126-129 | the access mode is parsed from `access_mode` when present, else it is OVERWRITE |
| Rdb.BuildQuery | source/rdb.py:148-179 | the query fails exactly when the table is incremental with an empty cursor expression, with that ValueError; otherwise it starts with the SELECT of the projection from `namespace.name` |
| Rdb.QueryPredicate | source/rdb.py:157-176 | the four shapes: no WHERE; ` WHERE (filter)`; ` WHERE (cursor)`; ` WHERE (filter) AND (cursor)` |
| Rdb.IsIncremental | source/rdb.py:132-138 | a table is incremental exactly when its specification has a `cursor` key |
| Rdb.SelectFrom | source/rdb.py:152-155 | the projection joined by `, ` and selected from `namespace.name` |
| Rdb.QueryConjuncts | source/rdb.py:160-176 | the conditions of the extraction query: the filter, then the cursor predicate, both in parentheses |
| Rdb.WhereClause | source/rdb.py:157-176 | nothing without conditions, else ` WHERE ` and the conditions joined by ` AND ` |
| Rdb.QueryWhere | source/rdb.py:148-179 | a query that can be built is the projection from `namespace.name` followed by the `WHERE` clause of its conditions |
| Rdb.FullQueryIgnoresCursor | source/rdb.py:166-176 | the query of a non-incremental table does not depend on the cursor expression |
| Rdb.RDBSource.constructor | source/rdb.py:9-16 | the connection settings and the `tables` list are taken from the configuration |
| Rdb.RDBSource.Name | source/rdb.py:18-20 | the name starts with `host:` and ends with `/database`, and the text between them is the port in decimal, which reads back as the port |
| Rdb.NameParts | source/rdb.py:20 | `host:port/database` splits back into the host, the port and the database |
| Rdb.RDBTable.constructor | source/rdb.py:56-89 | the namespace and name are stripped; the schema, filter and empty cursor expression are the specification's defaults |
| Rdb.RDBTable.BatchSize | source/rdb.py:111-117 | the batch size of the table's specification |
| Rdb.RDBTable.Query | source/rdb.py:148-179 | the extraction query built from the table's current schema, filter and cursor predicate |
| Rdb.RDBTable.Target | source/rdb.py:119-130 | a new destination table in the target's namespace, with the target name and the parsed mode, and no columns; the parse error otherwise |
| Postgres.SpecialCharactersListed | source/postgres.py:79 | the special characters are exactly the listed 31, so `-` and `_` are not among them |
| Postgres.EscapeColumnName | source/postgres.py:295-300 | the name is wrapped in double quotes iff its lower-case form is a reserved word or it holds a special character; otherwise it is returned unchanged |
| Postgres.EscapeNotIdempotent | source/postgres.py:295-300 | escaping an escaped name quotes it again, because the quote character is special |
| Postgres.EscapePlainIsStable | source/postgres.py:295-300 | a name that needs no quoting is returned unchanged however often it is escaped |
| Postgres.EscapeExamples | source/postgres.py:295-300 | `SELECT` and `unit price` are quoted, `order_id` is kept, and an embedded quote is not doubled |
| Postgres.Aliased | source/postgres.py:156 | a rewritten expression ends with ` as ` and the escaped name |
| Postgres.MapColumnSpec | source/postgres.py:153-184 | a type the mapping table names keeps its escaped name and takes the named Arrow type, before any other rule; only a numeric column without precision or scale fails; every expression is the escaped name or aliased back to it; the warning is logged exactly for an unrecognised type; every unmapped type but money and numeric becomes a string |
| Postgres.MapColumnRules | source/postgres.py:153-184 | a type in the mapping table takes the named Arrow type whatever its family; for every other type, the exact expression and Arrow type of its family: the text cast, money as decimal(21,4), numeric with the catalog's precision and scale, date with `tochar`, the four time names with `to_char`, interval, and the fallback |
| Postgres.ZonedTimesFallThrough | source/postgres.py:171 | `timestamptz` and `timetz` take the text-cast fallback with a warning |
| Postgres.MapColumn | source/postgres.py:153-184 | the type rule for one catalog row, in the code's priority order |
| Postgres.MapRow | source/postgres.py:145-184 | the type rule applied to the row's escaped name |
| Postgres.Mappings | source/postgres.py:144-147 | one mapping per catalog row, each that row's mapping |
| Postgres.Assemble | source/postgres.py:144-191 | the accumulation of schema entries and Arrow fields over the rows, stopped by the first mapping that raises |
| Postgres.ResolveColumns | source/postgres.py:142-191 | the accumulation over the mappings of all catalog rows |
| Postgres.AssembleSucceeds | source/postgres.py:144-191 | the accumulation succeeds iff every row maps, and a failure is the error of some row |
| Postgres.AssembleFirstFailure | source/postgres.py:144-191 | the first row that fails to map decides the error |
| Postgres.ResolveStep | source/postgres.py:144-191 | one loop iteration either raises the row's error or extends both lists by the row's entries |
| Postgres.ResolveSchema | source/postgres.py:142-191 | the loop over the catalog rows computes the resolved schema and Arrow fields of the specification |
| Postgres.ResolveColumnsSucceeds | source/postgres.py:144-191 | resolution succeeds iff every row maps, and its only error is the numeric one |
| Postgres.ResolveColumnsEntries | source/postgres.py:144-195 | one schema entry and one Arrow field per catalog row, in order; entries pair the rewritten expression with the PostgreSQL type; fields carry the raw, unescaped name |
| Postgres.QuotedNames | source/postgres.py:127 | each named column in single quotes, in schema order |
| Postgres.CatalogQuery | source/postgres.py:119-134 | with the wildcard, all columns of the table; otherwise only the named columns; both by ordinal position |
| Postgres.CatalogColumnList | source/postgres.py:126-134 | without the wildcard, the text between `IN (` and `)` splits at the commas into exactly the schema's column names, single-quoted, in schema order |
| Postgres.QuotedNamesSplit | source/postgres.py:127 | the `, `-joined quoted names split back into one quoted name per column, each after the first behind a space |
| Postgres.HasWildcard | source/postgres.py:119 | the schema holds the wildcard when some entry's expression is `*` |
| Postgres.RenderValue | source/postgres.py:205-207 | a string value is wrapped in single quotes without escaping; an integer renders as its decimal digits |
| Postgres.CursorExpression | source/postgres.py:203-213 | field `xid` gives `xmin::TEXT::BIGINT op value`; any other field gives `"field" op value` |
| Postgres.ResolvedIncrementalQuery | source/postgres.py:200-215 | once the cursor expression is set, the incremental query can be built |
| Postgres.CountQuery | source/postgres.py:226-247 | incremental: the cursor predicate after WHERE, then ` AND (filter)`; full: `-1` as the target value and ` WHERE filter` unparenthesised; no filter, no clause |
| Postgres.TargetAggregate | source/postgres.py:227-235 | the cursor's maximum: `max(xmin::TEXT::BIGINT)` for field `xid`, else the maximum of the double-quoted field |
| Postgres.CountSelect | source/postgres.py:226-245 | the select list and table of the pre-scan: the count, then the cursor's maximum or `-1` |
| Postgres.CountConjuncts | source/postgres.py:226-247 | the pre-scan's conditions: the bare cursor predicate and then the parenthesised filter, or the bare filter alone |
| Postgres.CountQueryShapes | source/postgres.py:226-247 | the select list followed by the `WHERE` clause of the pre-scan's conditions has the four textual shapes of the pre-scan |
| Postgres.PrescanMatchesExtraction | source/postgres.py:226-247 | the pre-scan counts over the same `namespace.name` and under the same conditions as the extraction query selects (the filter and, when incremental, the cursor predicate); only their order and parentheses differ |
| Postgres.SameTable | source/postgres.py:229-244 | the extraction query's select and the pre-scan's select both end with ` FROM namespace.name` |
| Postgres.SameConditions | source/postgres.py:231-247 | the pre-scan's conditions are, as a multiset, those of the extraction query |
| Postgres.PGTable.TableInfoQuery | source/postgres.py:226-247 | the pre-scan text of the table's current namespace, name, cursor, cursor predicate and filter |
| Postgres.Chunks | source/postgres.py:277-284 | what successive `fetchmany(size)` calls return up to the first empty one |
| Postgres.ChunksSpec | source/postgres.py:277-284 | the chunks concatenate to the rows in order; each is non-empty and at most the batch size; all but the last are full |
| Postgres.ChunksCount | source/postgres.py:277-284 | the number of chunks is the row count divided by the batch size, rounded up |
| Postgres.ChunksOfSevenByThree | source/postgres.py:277-284 | 7 rows with batch size 3 give chunks of 3, 3 and 1 rows |
| Postgres.Fetched | source/postgres.py:277-280 | the chunks of a complete fetch loop; a size of 0 or less fetches nothing |
| Postgres.FetchStep | source/postgres.py:278-280 | a non-empty fetch takes the next min(size, remaining) rows |
| Postgres.FetchUntil | source/postgres.py:275-293 | the chunks before the fetch that raises and not exhausted, or all chunks and exhausted |
| Postgres.Extract | source/postgres.py:264-293 | nothing when the pre-scan failed or counted 0 rows, else the fetch loop |
| Postgres.FetchAll | source/postgres.py:277-284 | the fetch loop yields the chunks before the first raising fetch, and reports whether it ran to the empty fetch |
| Postgres.ExtractBatches | source/postgres.py:264-293 | nothing is yielded when the pre-scan failed or counted 0 rows; the batches are non-empty, at most the batch size, and a prefix of the rows in order; all the rows when the loop is exhausted |
| Postgres.AdvanceCursor | source/postgres.py:290 | only the cursor's value changes |
| Postgres.Batches | source/postgres.py:281-284 | one batch per chunk, in order, each with the table's Arrow schema |
| Postgres.PGTable.constructor | source/postgres.py:71-102 | the table's defaults as read from the specification, the 31 special characters, the given reserved words and type mappings, and an empty Arrow schema |
| Postgres.PGTable.UpdateTableSpec | source/postgres.py:111-216 | the schema and Arrow schema become the resolution of the catalog rows; the cursor expression is set only for an incremental table; on an error nothing changes |
| Postgres.PGTable.GetBatches | source/postgres.py:264-293 | yields the batches of the extraction; the cursor value is set to the pre-scan target value only when incremental and the loop is exhausted |
| Iceberg.Created | iceberg.py:18-23 | create-if-absent: a new table with the schema and no rows, an existing one kept |
| Iceberg.CreatedSpec | iceberg.py:18-23 | an absent identifier is added with the schema and no rows; an existing one leaves the catalog unchanged; no other table changes |
| Iceberg.Recreated | iceberg.py:25-32 | drop if present, then create |
| Iceberg.RecreatedIsFresh | iceberg.py:25-32 | afterwards the identifier holds the schema and no rows, whether or not it existed, and no other table changes |
| Iceberg.Write | iceberg.py:37-73 | load, create on "no such table", then write, dumping a failed write |
| Iceberg.WriteSpec | iceberg.py:37-73 | a load error leaves the write and changes nothing; otherwise an absent table is created with the batch's schema; a failing write dumps the batch once, leaves the rows, and returns normally; a clean append adds the batch after the rows; a clean overwrite makes the rows the batch; no other table changes |
| Iceberg.AppendExtends | iceberg.py:47-48 | a clean append to an existing table makes its rows the old rows followed by the batch |
| Iceberg.OverwriteIdempotent | iceberg.py:66-67 | overwriting twice with the same batch leaves what overwriting once left |
| Iceberg.IBSession.constructor | iceberg.py:14-16 | the session starts on the given catalog with no dumps |
| Iceberg.IBSession.CreateTable | iceberg.py:18-23 | the catalog becomes the create-if-absent of the old catalog |
| Iceberg.IBSession.RecreateTable | iceberg.py:25-32 | the catalog becomes the old catalog with the identifier holding the schema and no rows |
| Iceberg.IBSession.AlterTable | iceberg.py:34-35 | nothing changes |
| Iceberg.IBSession.UpsertTable | iceberg.py:75-77 | nothing changes |
| Iceberg.IBSession.DumpTable | iceberg.py:79-87 | the batch is recorded as one more dump |
| Iceberg.IBSession.WriteTable | iceberg.py:37-73 | the catalog, the dumps and whether an exception left the call are those of the write specification |
| Iceberg.IBSession.AppendTable | iceberg.py:37-54 | the write specification with append |
| Iceberg.IBSession.OverwriteTable | iceberg.py:56-73 | the write specification with overwrite |
| Main.Step | main.py:59-72 | each batch makes exactly one call, added after the earlier ones |
| Main.Route | main.py:58-72 | the batch loop, one step per batch in order |
| Main.RoutedCall | main.py:58-72 | the call for the batch at a position: overwrite while every earlier overwrite raised, else upsert or append |
| Main.StepOverwrite | main.py:61-64 | the overwrite flag stays set only while the overwrite raises |
| Main.RouteExtends | main.py:58-72 | one call per batch, after the calls made before the loop |
| Main.RouteCallAt | main.py:58-72 | batch j is overwritten while every earlier write raised in OVERWRITE mode; otherwise it is upserted in UPSERT mode and appended in every other mode |
| Main.RouteCalls | main.py:58-72 | the batch loop makes, in batch order, exactly the call each batch's position and the earlier faults decide |
| Main.RouteNothing | main.py:58 | with no batches the loop makes no call and changes nothing |
| Main.AppendAll | main.py:66-69 | appends that all go through leave the old rows followed by every batch's rows, in order, with no dump and no other table touched |
| Main.OverwriteThenAppend | main.py:50-64 | OVERWRITE with n ≥ 1 clean batches overwrites batch 1, then appends the n-1 others in order; the table holds exactly the batches' rows |
| Main.FailedOverwriteKeepsOldRows | main.py:58-69 | OVERWRITE whose first write fails: that batch is dumped, the later batches are appended, and the table keeps its old rows followed by theirs |
| Main.UpsertChangesNothing | main.py:54-67 | UPSERT calls the upsert for every batch, and the catalog and the dumps do not change |
| Main.DumpsAreFailedWrites | main.py:58-72 | outside UPSERT mode, the dumps of a table's loop are exactly the batches whose write raised, once each, in order |
| Main.RouteKeepsOthers | main.py:58-72 | the loop writes to no other table |
| Main.TargetId | main.py:43-44 | the destination identifier `namespace.name` of the target |
| Main.TableExtraction | main.py:58 | the reader's extraction for the resolved schema and the table's answers |
| Main.ReadSchema | main.py:42 | the resolved schema, the catalog query's error, or the mapping error |
| Main.TableQueryBuilt | main.py:58 | after resolution the extraction query never raises the missing-cursor error |
| Main.Prepared | main.py:42-43 | a table is prepared exactly when its catalog rows resolve and its target mode parses, with those results; a failed catalog query or mapping is reported before a malformed target |
| Main.StartState | main.py:46-56 | recreated with one Recreate call in REPLACE mode; otherwise unchanged, with the overwrite flag set exactly in OVERWRITE mode |
| Main.Replicated | main.py:46-72 | the batch loop from the start state, and the written-back specification |
| Main.WrittenBack | source/postgres.py:286-290 | the specification with the pre-scan's value as cursor value when incremental and exhausted |
| Main.TableRun | main.py:40-72 | a table that fails to open changes nothing and makes no call; a run changes only the cursor of the table's specification |
| Main.ReplaceRecreatesThenAppends | main.py:46-69 | REPLACE first recreates the target with the resolved Arrow schema, then appends every batch in batch order, one call each |
| Main.AppendModesAppend | main.py:66-69 | APPEND and READONLY append every batch, in order, and make no other call |
| Main.AppendsOnly | main.py:66-69 | a loop that is neither overwriting nor upserting keeps the calls made before it and then appends every batch, in order, and makes no other call |
| Main.CursorPersistence | source/postgres.py:286-290 | the written-back specification differs only in the cursor value, and only when incremental and exhausted, where it holds the pre-scanned target value |
| Main.ExhaustedWhen | source/postgres.py:267-290 | the loop is exhausted iff the pre-scan succeeded with a non-zero size and no fetch raised |
| Main.RunTables | main.py:39-42 | one written-back specification per configured table |
| Main.RunTablesInOrder | main.py:39-42 | tables are processed in configuration order: the first table's calls come first, and each specification changes only in its cursor |
| Main.RunAll | main.py:39-72 | the table loop with one table's run as its body |
| Main.RunAllInOrder | main.py:39-42 | the same for the whole run |
| Main.RouteBatches | main.py:58-72 | the session's catalog and dumps after the batch loop are those of the routing specification |
| Main.ReadTable | main.py:42 | the reader is built from the specification with the resolved schema and cursor expression, or the catalog or mapping error is raised |
| Main.OpenTable | main.py:42-44 | the reader and its target, with the query, batch size and Arrow schema of the prepared table, or the error that ends the run |
| Main.ReplicateOpened | main.py:46-72 | recreate when REPLACE, set the flags, route every batch: the outcome of the run specification |
| Main.ReplicateTable | main.py:40-72 | one table's outcome is that of the run specification, and an error leaves the catalog and dumps unchanged |
| Main.ReplicateNext | main.py:39-72 | one iteration of the table loop writes that table's specification back and carries the run invariant |
| Main.Replicate | main.py:39-72 | the whole loop leaves the configuration, the catalog and the dumps exactly as the run specification says, stopping at the first table error |

## Left out

- The SSH tunnel, the database connection, and the source's enter and exit are not modelled. They are network I/O.
- Reading the configuration, the reserved words and the type-mapping file is not modelled. These values are parameters. A failed reserved-word query gives an empty set.
- The JSON-schema validation of a specification is not modelled. `TableSpec` gives the required keys their types, so every modelled specification is valid.
- The queries are not executed. The catalog rows, the pre-scan result and the extraction rows are inputs. The model keeps only the query text and what is done with the rows.
- Rows are abstract values. Arrow types are a small datatype, not `getattr(pa, …)` objects. `RecordBatch` construction cannot fail.
- Decimal precision and scale are not range-checked, as pyarrow would check them.
- A `numeric_precision` that is present but not an integer is not modelled.
- The Iceberg catalog is a map from identifier to schema and rows. Commits, snapshots and schema evolution are not modelled.
- Create and drop are assumed to raise nothing except "already exists" and "no such table".
- The contents of the dump file are not modelled; a dump is an event. Writing the configuration file back is not modelled either; the run returns the updated table list.
- Logging and argv handling are not modelled.
- Upsert and alter have no behaviour in the code. The model calls them and changes nothing.
- Text.Upper: maps only ASCII letters. Python's `upper()` also maps other letters, some of them to several characters. Access-mode names are ASCII, so parsing differs only on non-ASCII input that Python would upper-case to a mode name.
- Text.Lower: maps only ASCII letters, for the same reason. A non-ASCII column name may therefore be compared with the reserved words differently.
- Postgres.RenderValue: covers only strings, integers and null. Float and boolean cursor values are not modelled.
- Postgres.CatalogQuery: states the query text with its layout white space collapsed to single spaces.
- Postgres.CountQuery: states the query text with its layout white space collapsed to single spaces.
- Postgres.FetchAll: the database's handling of a batch size of 0 or less is not modelled. Such a size is taken to fetch nothing.
- Postgres.PGTable.GetBatches: computes the batches before the run loop consumes them. In the code they are produced lazily, interleaved with the writes. The writes cannot affect the source rows, so the same batches reach the writer.
- A pre-scan with no row, or a pre-scan that raises, is one `None` input. In the code both cases end the generator without a batch.
- The source's `host` and `port` setters are left out with the SSH tunnel. `PGSource.__enter__` calls them only when `use_ssh` is set, to point the connection at the tunnel's local end (source/postgres.py:36-37).
- Iceberg.Write: has no fault for a table that is absent, is created, and then raises when it is loaded again (iceberg.py:44-45 and 63-64). In the code that leaves the table created while the exception leaves the write. The model's `LoadFails` changes nothing, so this case is not captured.
