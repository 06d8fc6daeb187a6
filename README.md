# HugeGraph Cassandra table adapter, modelled in Dafny

This project models the part of HugeGraph's Cassandra backend that maps graph
storage onto CQL tables: `CassandraTable` (the base table) and the table
definitions of `CassandraTables` (vertices, edges, the secondary and search
indexes, and the schema-catalog tables). It covers:

- **Keys and values** (`Keys`, `Values`). A column key is rendered by
  `formatKey` and read back by `parseKey`. The keys include the catalog
  tables' own columns, so catalog rows read back like any other. Ids and directions are
  normalised by `serializeValue`.
- **Table definitions** (`Tables`). Each table has its name and id columns.
  It also decodes identifiers (`idColumnValue`), including the edge table's
  direction normalisation of four-part ids.
- **Condition compiler** (`Conditions`): `condition2Cql` and `relation2Cql`.
- **Query translator** (`Queries`): `query2Select`, `queryId2Select` and
  `queryCondition2Select`.
- **Reading rows back** (`Merge`, `Reads`):
  - `result2Entry` and `results2Entries`;
  - the vertex table's and the edge table's `mergeEntries`;
  - `query`, which runs the selects on a session.
- **Writes** (`Mutations`, `TableWrites`):
  - `insert`, `append`, `eliminate` and `delete`;
  - the edge table's delete-by-label scan;
  - the index tables' delete overrides and their refusal of inserts.
- **Schema statements** (`Schema`): the four `createTable` overloads and
  `createIndex`.
- **Metadata** (`Metadata`): the `metadata` entry point and its
  "splits" handler.

CQL statements are values (`Cql`). The session is a class (`Sessions`)
with three logs:

- mutations go on a batch and are only staged;
- selects are executed at once against a store function;
- schema statements are sent at once, and a store predicate says whether
  the cluster runs each one or the driver throws.

Methods that change the session state the new state of all three logs.

Each operation is a method that follows the source loop by loop. It is
proved against a specification function, and lemmas state what the source
promises about that function:

- `parseKey` inverts `formatKey` (with ASCII, locale-free upper-casing);
- a four-part edge id read for `IN` is the swapped `OUT` id;
- a query's selects keep its table, limit and orderings;
- a malformed id or an `OR` condition fails the translation;
- edge merging keeps every row under its owner's vertex;
- under the collection semantics the model assumes for CQL, an
  `eliminate` undoes an `append` of new elements;
- each scanned row yields one delete;
- the key lists of a `CREATE TABLE` statement read back into their keys.

Java `assert` statements are modelled as enabled. A failed assertion is an
`AssertionFailed` error. `query` does not wrap it, because
`AssertionError` is not an `Exception`. The same holds for the
`AssertionError` raised for an unsupported relation.

Three behaviours of the code are worth noting:

- The search index table's delete (hugegraph-cassandra/src/main/java/com/baidu/hugegraph/backend/store/cassandra/CassandraTables.java:470-489) stages one delete of the
  index label's partition. It scans nothing.
- The edge table's scan for a label (hugegraph-cassandra/src/main/java/com/baidu/hugegraph/backend/store/cassandra/CassandraTables.java:298-299) does not allow filtering.
- The partition-key loop of `createTable` (hugegraph-cassandra/src/main/java/com/baidu/hugegraph/backend/store/cassandra/CassandraTable.java:557-562) writes a separator
  before every key that is not identical to the first key. A repeat of the
  first key is therefore written without a separator.
  - `Schema.RepeatedFirstKeyLosesSeparator` shows this.
  - `Schema.PartitionListIsJoin` proves that the list is a plain
    ", "-join when the first key does not recur.
  - The overloads taking `primaryKeys` always pass a single partition key.

## Model

| member | source | states |
|---|---|---|
| `Keys.Find` | hugegraph-cassandra/src/main/java/com/baidu/hugegraph/backend/store/cassandra/CassandraTable.java:363-365 | A key found carries the name and is in the list searched. No key found means no listed key has that name. |
| `Keys.FormatInjective` | hugegraph-cassandra/src/main/java/com/baidu/hugegraph/backend/store/cassandra/CassandraTable.java:359-361 | Two keys with the same formatted name are the same key. |
| `Keys.Format` | hugegraph-cassandra/src/main/java/com/baidu/hugegraph/backend/store/cassandra/CassandraTable.java:359-361 | `formatKey` writes a key as its enum name, a non-empty run of upper-case letters and underscores. That is why upper-casing leaves it unchanged and it holds no comma. |
| `Keys.ParseKey` | hugegraph-cassandra/src/main/java/com/baidu/hugegraph/backend/store/cassandra/CassandraTable.java:363-365 | A key returned by `parseKey` has the upper-cased column name as its name. No key returned means no key has that name. |
| `Keys.ValueOfMeaning` | hugegraph-cassandra/src/main/java/com/baidu/hugegraph/backend/store/cassandra/CassandraTable.java:363-365 | `HugeKeys.valueOf` returns key k exactly when the name is k's name. |
| `Keys.ParseKeyMeaning` | hugegraph-cassandra/src/main/java/com/baidu/hugegraph/backend/store/cassandra/CassandraTable.java:363-365 | `parseKey` returns k exactly when k's name equals the upper-cased column name. |
| `Keys.ParseFormatted` | hugegraph-cassandra/src/main/java/com/baidu/hugegraph/backend/store/cassandra/CassandraTable.java:359-365 | `parseKey` inverts `formatKey`. This holds on the name as written and on the lower-cased name Cassandra reports. |
| `Values.IdOf` | hugegraph-cassandra/src/main/java/com/baidu/hugegraph/backend/store/cassandra/CassandraTables.java:191 | The id made of a string has one part, and its string form is that string. |
| `Values.SerializeScalar` | hugegraph-cassandra/src/main/java/com/baidu/hugegraph/backend/store/cassandra/CassandraTable.java:307-316 | An id becomes its string form and a direction becomes its name. Any other scalar is unchanged. The result is never an id or a direction. |
| `Values.SerializeValue` | hugegraph-cassandra/src/main/java/com/baidu/hugegraph/backend/store/cassandra/CassandraTable.java:307-316 | Only a single value is serialised. A collection passes through unchanged. |
| `Values.SerializeIdempotent` | hugegraph-cassandra/src/main/java/com/baidu/hugegraph/backend/store/cassandra/CassandraTable.java:307-316 | Serialising twice is the same as serialising once. |
| `Entries.GetObject` | hugegraph-cassandra/src/main/java/com/baidu/hugegraph/backend/store/cassandra/CassandraTable.java:336 | `Row.getObject(name)` yields the value of the first column whose name matches case-insensitively. It yields nothing exactly when no column matches. Later columns of the same name are never read. |
| `Entries.RowText` | hugegraph-cassandra/src/main/java/com/baidu/hugegraph/backend/store/cassandra/CassandraTables.java:313-315 | A text read from a driver row comes from the first column whose name matches case-insensitively, and that column holds exactly that text. There is no text exactly when no column matches or the first matching column does not hold text. |
| `Tables.EdgeIdColumnValue` | hugegraph-cassandra/src/main/java/com/baidu/hugegraph/backend/store/cassandra/CassandraTables.java:248-268 | The in-place split, swap and insert of the edge table computes `EdgeIdParts`. |
| `Tables.DecodeId` | hugegraph-cassandra/src/main/java/com/baidu/hugegraph/backend/store/cassandra/CassandraTables.java:243-246 | `idColumnValue(id)` as the table's override computes it: the edge decoding for `OUT`, otherwise the id's string form. |
| `Tables.EdgeIdFourParts` | hugegraph-cassandra/src/main/java/com/baidu/hugegraph/backend/store/cassandra/CassandraTables.java:255-264 | A four-part id gives five values with the direction's name at index 1. Label and sort values are kept. Owner and other vertex are swapped exactly for `IN`. |
| `Tables.EdgeIdOtherLengths` | hugegraph-cassandra/src/main/java/com/baidu/hugegraph/backend/store/cassandra/CassandraTables.java:267 | An id without four parts is returned unchanged, whatever the direction. |
| `Tables.EdgeIdInIsSwappedOut` | hugegraph-cassandra/src/main/java/com/baidu/hugegraph/backend/store/cassandra/CassandraTables.java:256-261 | An `IN` lookup equals the `OUT` lookup of the swapped id, with only the direction token replaced. |
| `Tables.SingleColumnRoundTrip` | hugegraph-cassandra/src/main/java/com/baidu/hugegraph/backend/store/cassandra/CassandraTable.java:351-353 | On a non-edge table a one-part id decodes to its own string. Making an id of that string gives the id back. |
| `Conditions.Relation2Cql` | hugegraph-cassandra/src/main/java/com/baidu/hugegraph/backend/store/cassandra/CassandraTable.java:261-305 | A relation compiles exactly when `RelationSupported` holds (stated apart from the compiler). A comparison becomes its operator on the serialised value. `CONTAINS_KEY` becomes a contains-key clause on the serialised value. `NEQ` and unmapped relations fail with an assertion error. |
| `Conditions.Condition2Cql` | hugegraph-cassandra/src/main/java/com/baidu/hugegraph/backend/store/cassandra/CassandraTable.java:243-259 | A condition tree compiles exactly when it has no `OR`, no other condition type and only supported relations. An `OR` at the root fails with the unsupported-`OR` error. Any other condition type at the root fails an assertion. |
| `Conditions.CompiledPredicateCount` | hugegraph-cassandra/src/main/java/com/baidu/hugegraph/backend/store/cassandra/CassandraTable.java:243-294 | The compiled clause has one predicate per relation, plus one per `SCAN` (its two token bounds). |
| `Conditions.AndCompiles` | hugegraph-cassandra/src/main/java/com/baidu/hugegraph/backend/store/cassandra/CassandraTable.java:245-249 | `AND` compiles to `And(a, b)` exactly when its left side compiles to a and its right side to b. |
| `Conditions.AndLeftErrorFirst` | hugegraph-cassandra/src/main/java/com/baidu/hugegraph/backend/store/cassandra/CassandraTable.java:246-247 | An error in the left side of `AND` is the conjunction's error, because the left side is compiled first. |
| `Conditions.ScanIsHalfOpenRange` | hugegraph-cassandra/src/main/java/com/baidu/hugegraph/backend/store/cassandra/CassandraTable.java:288-294 | `SCAN` compiles to token(partition key) >= key and token(partition key) < value. |
| `Conditions.InSerialisesEachElement` | hugegraph-cassandra/src/main/java/com/baidu/hugegraph/backend/store/cassandra/CassandraTable.java:279-285 | `IN` on a list compiles to one element per item, in order, each serialised on its own. |
| `Queries.ToInt32` | hugegraph-cassandra/src/main/java/com/baidu/hugegraph/backend/store/cassandra/CassandraTable.java:135 | The `(int)` cast of the limit lies in the 32-bit range and equals the limit modulo 2^32. |
| `Queries.ToInt32InRange` | hugegraph-cassandra/src/main/java/com/baidu/hugegraph/backend/store/cassandra/CassandraTable.java:135 | A limit that fits in an `int` is unchanged by the cast. |
| `Queries.FirstMismatch` | hugegraph-cassandra/src/main/java/com/baidu/hugegraph/backend/store/cassandra/CassandraTable.java:182-188 | Gives the first id whose part count differs from the id-column count; every id before it matches. None means every id matches. |
| `Queries.IdEquals` | hugegraph-cassandra/src/main/java/com/baidu/hugegraph/backend/store/cassandra/CassandraTable.java:220-223 | The clauses bind each id column to the id part at the same position, by equality. |
| `Queries.DecodeIds` | hugegraph-cassandra/src/main/java/com/baidu/hugegraph/backend/store/cassandra/CassandraTable.java:181-190 | The first malformed id fails with an error naming it and the id columns. Otherwise the result is every id's decoded parts, in order. |
| `Queries.InList` | hugegraph-cassandra/src/main/java/com/baidu/hugegraph/backend/store/cassandra/CassandraTable.java:194-198 | The `IN` list is the only part of each decoded id, in order. |
| `Queries.IdSelection` | hugegraph-cassandra/src/main/java/com/baidu/hugegraph/backend/store/cassandra/CassandraTable.java:214-224 | Gives a copy of the base select with one equality per id column appended, in order. |
| `Queries.IdSelections` | hugegraph-cassandra/src/main/java/com/baidu/hugegraph/backend/store/cassandra/CassandraTable.java:210-226 | Gives one such select per decoded id, in id order. |
| `Queries.QueryId2Select` | hugegraph-cassandra/src/main/java/com/baidu/hugegraph/backend/store/cassandra/CassandraTable.java:173-227 | Computes `IdSelects`: the base select when there are no ids; an error for a malformed id; one `IN` select for one id column; one select per id otherwise. |
| `Queries.CompileAll` | hugegraph-cassandra/src/main/java/com/baidu/hugegraph/backend/store/cassandra/CassandraTable.java:233-239 | Succeeds exactly when every condition compiles. The i-th clause is then the compilation of the i-th condition. |
| `Queries.CompileAllPrefixError` | hugegraph-cassandra/src/main/java/com/baidu/hugegraph/backend/store/cassandra/CassandraTable.java:233-235 | Once a prefix of the conditions fails, the whole list fails with the same error. |
| `Queries.QueryCondition2Select` | hugegraph-cassandra/src/main/java/com/baidu/hugegraph/backend/store/cassandra/CassandraTable.java:229-241 | Gives the first compile error, or the select extended with every clause. `ALLOW FILTERING` is set when some clause needs it. |
| `Queries.NewBaseSelect` | hugegraph-cassandra/src/main/java/com/baidu/hugegraph/backend/store/cassandra/CassandraTable.java:129-153 | The base select has the table, the limit unless unbounded (cast to `int`) and the orderings in order. |
| `Queries.ConditionsOnEach` | hugegraph-cassandra/src/main/java/com/baidu/hugegraph/backend/store/cassandra/CassandraTable.java:162-170 | The conditions are applied to every id select in turn. The first compile error is the result. |
| `Queries.Query2Select` | hugegraph-cassandra/src/main/java/com/baidu/hugegraph/backend/store/cassandra/CassandraTable.java:129-171 | Computes `Query2SelectSpec`: the id selects, each extended with the compiled conditions when there are any. |
| `Queries.IdSelectsNonEmpty` | hugegraph-cassandra/src/main/java/com/baidu/hugegraph/backend/store/cassandra/CassandraTable.java:173-227 | A successful id resolution yields at least one select. |
| `Queries.SelectsKeepBase` | hugegraph-cassandra/src/main/java/com/baidu/hugegraph/backend/store/cassandra/CassandraTable.java:129-171 | Every select of a translation has the query's table, limit and orderings. |
| `Queries.NoConditionsGiveIdSelects` | hugegraph-cassandra/src/main/java/com/baidu/hugegraph/backend/store/cassandra/CassandraTable.java:158-161 | Without conditions the id selects are the result. |
| `Queries.ConditionsExtendEverySelect` | hugegraph-cassandra/src/main/java/com/baidu/hugegraph/backend/store/cassandra/CassandraTable.java:162-170 | With conditions, every id select gets all compiled clauses after its own, and the number of selects is unchanged. Filtering is allowed exactly when it was already or some clause needs it. |
| `Queries.OrConditionFails` | hugegraph-cassandra/src/main/java/com/baidu/hugegraph/backend/store/cassandra/CassandraTable.java:250-251 | An `OR` condition fails the translation. |
| `Queries.OffsetIgnored` | hugegraph-cassandra/src/main/java/com/baidu/hugegraph/backend/store/cassandra/CassandraTable.java:138-142 | The offset does not affect the selects. |
| `Queries.LimitOfBaseSelect` | hugegraph-cassandra/src/main/java/com/baidu/hugegraph/backend/store/cassandra/CassandraTable.java:133-136 | An unbounded limit gives no `LIMIT`. A positive `int` limit is kept. A limit of 2^32+1 becomes 1. |
| `Queries.MalformedIdFails` | hugegraph-cassandra/src/main/java/com/baidu/hugegraph/backend/store/cassandra/CassandraTable.java:182-188 | Any id with the wrong part count fails the translation, naming the first such id. |
| `Queries.IdSelectShapes` | hugegraph-cassandra/src/main/java/com/baidu/hugegraph/backend/store/cassandra/CassandraTable.java:192-226 | One id column gives one select with one `IN` clause over every id's part. Several id columns give one select per id that keeps the base select and binds every id column positionally. |
| `Merge.ParseColumns` | hugegraph-cassandra/src/main/java/com/baidu/hugegraph/backend/store/cassandra/CassandraTable.java:333-337 | Each driver column is paired, in order, with the key its name parses to and with the value `getObject` reads for that name. That value is the first case-insensitively matching column's, which may be an earlier column. |
| `Merge.Collect` | hugegraph-cassandra/src/main/java/com/baidu/hugegraph/backend/store/cassandra/CassandraTable.java:330-341 | The columns collect successfully exactly when every name parses to a key. Otherwise the error names the first column that does not. |
| `Merge.Result2Entry` | hugegraph-cassandra/src/main/java/com/baidu/hugegraph/backend/store/cassandra/CassandraTable.java:330-341 | `result2Entry` reads every column by name and yields an entry of the given kind with no id, holding the collected columns, or the collection's error. |
| `Merge.CollectKeys` | hugegraph-cassandra/src/main/java/com/baidu/hugegraph/backend/store/cassandra/CassandraTable.java:334-338 | The entry's keys are exactly the keys the row's column names parse to. |
| `Merge.CollectLastWins` | hugegraph-cassandra/src/main/java/com/baidu/hugegraph/backend/store/cassandra/CassandraTable.java:337 | `Map.put` semantics: when two parsed columns name the same key, the later put is kept. On a driver row the later put repeats the earlier value (see `Merge.EntryColumnsFirstWins`). |
| `Merge.CollectUniform` | hugegraph-cassandra/src/main/java/com/baidu/hugegraph/backend/store/cassandra/CassandraTable.java:334-338 | A key all of whose columns carry the same value collects to that value. |
| `Merge.EntryColumnsFirstWins` | hugegraph-cassandra/src/main/java/com/baidu/hugegraph/backend/store/cassandra/CassandraTable.java:333-338 | Of several columns whose names parse to the same key, the first one's value ends up in the entry, because `getObject` reads all of them from the first matching column. |
| `Merge.ParseLowerCasedColumns` | hugegraph-cassandra/src/main/java/com/baidu/hugegraph/backend/store/cassandra/CassandraTable.java:330-341 | A row of lower-cased names of distinct keys reads back as exactly those keys with their values. |
| `Merge.VertexIdsAssigned` | hugegraph-cassandra/src/main/java/com/baidu/hugegraph/backend/store/cassandra/CassandraTables.java:186-194 | The vertex merge keeps the entries in order and unchanged except that each id is set from its `ID` column. An entry without one fails. |
| `Merge.VertexMergeEntries` | hugegraph-cassandra/src/main/java/com/baidu/hugegraph/backend/store/cassandra/CassandraTables.java:186-194 | The loop computes `VertexIdsAssigned`. |
| `Merge.Owners` | hugegraph-cassandra/src/main/java/com/baidu/hugegraph/backend/store/cassandra/CassandraTables.java:331-349 | The owners list has no duplicates. |
| `Merge.OwnersMembers` | hugegraph-cassandra/src/main/java/com/baidu/hugegraph/backend/store/cassandra/CassandraTables.java:333-346 | The owners listed are exactly the owner vertices of the entries. |
| `Merge.GroupStep` | hugegraph-cassandra/src/main/java/com/baidu/hugegraph/backend/store/cassandra/CassandraTables.java:333-349 | One step of the grouping loop keeps the loop invariant. The map then has one vertex per owner seen, keyed by the owner's id and holding exactly that owner's rows so far. |
| `Merge.GroupingGroups` | hugegraph-cassandra/src/main/java/com/baidu/hugegraph/backend/store/cassandra/CassandraTables.java:331-349 | Grouping all entries gives one vertex per owner, holding exactly that owner's rows in input order. |
| `Merge.GroupByOwner` | hugegraph-cassandra/src/main/java/com/baidu/hugegraph/backend/store/cassandra/CassandraTables.java:331-349 | The grouping loop fails exactly when some entry has no owner vertex. Otherwise it computes the grouping. |
| `Merge.MapValues` | hugegraph-cassandra/src/main/java/com/baidu/hugegraph/backend/store/cassandra/CassandraTables.java:351 | `values()` lists each key's value once, in some order of the distinct keys. |
| `Merge.EdgeMergeEntries` | hugegraph-cassandra/src/main/java/com/baidu/hugegraph/backend/store/cassandra/CassandraTables.java:326-352 | The edge merge returns the merged vertices, up to order, or fails on an entry without an owner. |
| `Merge.ValuesAreMergedVertices` | hugegraph-cassandra/src/main/java/com/baidu/hugegraph/backend/store/cassandra/CassandraTables.java:351 | The grouped map's values, in any order, are a permutation of one vertex per owner in first-seen order. |
| `Merge.RowInItsOwnersVertex` | hugegraph-cassandra/src/main/java/com/baidu/hugegraph/backend/store/cassandra/CassandraTables.java:347-348 | Every edge row is a sub-row of its owner's vertex. |
| `Merge.GroupingKeepsEveryRow` | hugegraph-cassandra/src/main/java/com/baidu/hugegraph/backend/store/cassandra/CassandraTables.java:330-349 | The vertices' sub-rows add up to the number of edge entries. |
| `Merge.MergeKeepsEveryRow` | hugegraph-cassandra/src/main/java/com/baidu/hugegraph/backend/store/cassandra/CassandraTables.java:326-352 | Whatever order the map yields, the result has one vertex per owner, and its sub-rows add up to the number of entries. |
| `Merge.TwoOwnersExample` | hugegraph-cassandra/src/main/java/com/baidu/hugegraph/backend/store/cassandra/CassandraTables.java:326-352 | Rows of owners A, B and A give two vertices: A holding the first and third row, B the second. |
| `Merge.AssembleMeaning` | hugegraph-cassandra/src/main/java/com/baidu/hugegraph/backend/store/cassandra/CassandraTable.java:318-328 | Converting rows succeeds exactly when every row does, with one entry per row in order. Otherwise the first failing row's error is the result. |
| `Merge.MergeEntries` | hugegraph-cassandra/src/main/java/com/baidu/hugegraph/backend/store/cassandra/CassandraTable.java:355-357 | `mergeEntries` dispatches on the table: vertex ids assigned, edges grouped up to order, other tables unchanged. |
| `Merge.Results2Entries` | hugegraph-cassandra/src/main/java/com/baidu/hugegraph/backend/store/cassandra/CassandraTable.java:318-328 | `results2Entries` converts every row, then merges. The result is exact except on the edge table, where it is up to order. |
| `Merge.ConvertRows` | hugegraph-cassandra/src/main/java/com/baidu/hugegraph/backend/store/cassandra/CassandraTable.java:320-325 | The conversion loop computes the entries of all rows in order, or the first row's error. |
| `Reads.Wrap` | hugegraph-cassandra/src/main/java/com/baidu/hugegraph/backend/store/cassandra/CassandraTable.java:121-123 | Every error except an assertion error is wrapped as a failed query. |
| `Reads.SelectEntries` | hugegraph-cassandra/src/main/java/com/baidu/hugegraph/backend/store/cassandra/CassandraTable.java:117-122 | A select fails only with an assertion error or a wrapped failure. |
| `Reads.GatherMeaning` | hugegraph-cassandra/src/main/java/com/baidu/hugegraph/backend/store/cassandra/CassandraTable.java:117-120 | Collecting succeeds exactly when every select's outcome does. Otherwise the first failing select's error is the result. |
| `Reads.RunOne` | hugegraph-cassandra/src/main/java/com/baidu/hugegraph/backend/store/cassandra/CassandraTable.java:118-119 | One pass executes exactly that select and yields its entries. Batch and schema are unchanged. |
| `Reads.FailureStops` | hugegraph-cassandra/src/main/java/com/baidu/hugegraph/backend/store/cassandra/CassandraTable.java:117-120 | A select that fails after every earlier one succeeded is the first failure, and its error is the result of running all the selects. |
| `Reads.RunAll` | hugegraph-cassandra/src/main/java/com/baidu/hugegraph/backend/store/cassandra/CassandraTable.java:117-120 | Executes the selects in order and concatenates their entries, stopping at the first failure. On success every select was executed. On failure the executed log grows by the selects up to and including the first failing one. Batch and schema are unchanged. |
| `Reads.Query` | hugegraph-cassandra/src/main/java/com/baidu/hugegraph/backend/store/cassandra/CassandraTable.java:106-127 | A zero limit returns nothing and executes nothing. A translation error executes nothing. Otherwise the result is `QuerySpec`. The selects executed are the translation's, or on failure those up to and including the first failing one. |
| `Reads.QueryErrorsWrapped` | hugegraph-cassandra/src/main/java/com/baidu/hugegraph/backend/store/cassandra/CassandraTable.java:115-123 | `query` fails only with an assertion error or a wrapped failure. |
| `Reads.RunSelectsAppend` | hugegraph-cassandra/src/main/java/com/baidu/hugegraph/backend/store/cassandra/CassandraTable.java:117-120 | The entries of consecutive selects are the entries of each, concatenated. |
| `Reads.DriverFailureFailsQuery` | hugegraph-cassandra/src/main/java/com/baidu/hugegraph/backend/store/cassandra/CassandraTable.java:118-122 | A select the driver fails on fails the query once the selects before it have succeeded. |
| `Reads.PlainTableKeepsEveryRow` | hugegraph-cassandra/src/main/java/com/baidu/hugegraph/backend/store/cassandra/CassandraTable.java:318-328 | On a table that does not merge, the query yields one entry per row returned. |
| `Mutations.VisitOrder` | hugegraph-cassandra/src/main/java/com/baidu/hugegraph/backend/store/cassandra/CassandraTable.java:375 | Iterating the entry's columns visits every column once. |
| `Mutations.IdWhere` | hugegraph-cassandra/src/main/java/com/baidu/hugegraph/backend/store/cassandra/CassandraTable.java:388-403 | Succeeds exactly when the id is present and has the id-column count. The clauses then bind every id column positionally. A missing id fails with the null-id error. |
| `Mutations.BindId` | hugegraph-cassandra/src/main/java/com/baidu/hugegraph/backend/store/cassandra/CassandraTable.java:401-403 | The loop computes `IdWhere`. |
| `Mutations.BuildInsert` | hugegraph-cassandra/src/main/java/com/baidu/hugegraph/backend/store/cassandra/CassandraTable.java:370-380 | The insert is `InsertSpec` for some order of the entry's columns. |
| `Mutations.InsertCarriesEveryColumn` | hugegraph-cassandra/src/main/java/com/baidu/hugegraph/backend/store/cassandra/CassandraTable.java:370-380 | An insert names each of the entry's columns exactly once, with its value. An entry without columns fails the assertion. |
| `Mutations.BuildUpdate` | hugegraph-cassandra/src/main/java/com/baidu/hugegraph/backend/store/cassandra/CassandraTable.java:385-453 | The update is `UpdateSpec` for some order of the entry's columns. |
| `Mutations.NonIdKeysMeaning` | hugegraph-cassandra/src/main/java/com/baidu/hugegraph/backend/store/cassandra/CassandraTable.java:394-396 | The assigned columns are exactly the visited columns that are not id columns, without duplicates. |
| `Mutations.AssignmentsFollowKeys` | hugegraph-cassandra/src/main/java/com/baidu/hugegraph/backend/store/cassandra/CassandraTable.java:394-399 | There is one assignment per non-id column, in visiting order, with that column's value. |
| `Mutations.UpdateAssignsEachColumnOnce` | hugegraph-cassandra/src/main/java/com/baidu/hugegraph/backend/store/cassandra/CassandraTable.java:385-453 | An update succeeds exactly when the id is present and well formed. It then binds every id column positionally. |
| `Mutations.AssignmentsCoverNonIdColumns` | hugegraph-cassandra/src/main/java/com/baidu/hugegraph/backend/store/cassandra/CassandraTable.java:394-399 | Every non-id column is assigned once and no id column is assigned. |
| `Mutations.Removal` | hugegraph-cassandra/src/main/java/com/baidu/hugegraph/backend/store/cassandra/CassandraTable.java:432-444 | `eliminate` removes a single value as one element. From a map it removes the keys, from a set its members and from a list its items. The removal names the entry's column. |
| `Mutations.EliminateUndoesAppend` | hugegraph-cassandra/src/main/java/com/baidu/hugegraph/backend/store/cassandra/CassandraTable.java:432-444 | Eliminating what was appended restores a set, map or list column when the appended elements were new. |
| `Mutations.BuildDelete` | hugegraph-cassandra/src/main/java/com/baidu/hugegraph/backend/store/cassandra/CassandraTable.java:458-486 | The delete is `DeleteSpec` for some order of the entry's columns. |
| `Mutations.DeleteBindsIdOrColumns` | hugegraph-cassandra/src/main/java/com/baidu/hugegraph/backend/store/cassandra/CassandraTable.java:458-486 | An entry without columns is deleted by its id columns. Otherwise it is deleted by equality on each of its columns, once each, and the id plays no part. |
| `Mutations.BaseInsert` | hugegraph-cassandra/src/main/java/com/baidu/hugegraph/backend/store/cassandra/CassandraTable.java:370-380 | Stages exactly the insert, or fails and stages nothing. |
| `Mutations.Update` | hugegraph-cassandra/src/main/java/com/baidu/hugegraph/backend/store/cassandra/CassandraTable.java:385-453 | Stages exactly the update, or fails and stages nothing. |
| `Mutations.BaseDelete` | hugegraph-cassandra/src/main/java/com/baidu/hugegraph/backend/store/cassandra/CassandraTable.java:458-486 | Stages exactly the delete, or fails and stages nothing. |
| `TableWrites.Stage` | hugegraph-cassandra/src/main/java/com/baidu/hugegraph/backend/store/cassandra/CassandraTables.java:310-323 | Deletes are staged in order up to the first failure, whose error stops the staging. |
| `TableWrites.RowDelete` | hugegraph-cassandra/src/main/java/com/baidu/hugegraph/backend/store/cassandra/CassandraTables.java:310-321 | An edge row yields its delete exactly when it carries the scanned label and has an owner vertex and a direction. A row with another label fails the assertion. An index row (the scan at lines 415-424 of the same file) yields its delete exactly when it has field values. The delete is on the scanned table and binds the label. |
| `TableWrites.StageRows` | hugegraph-cassandra/src/main/java/com/baidu/hugegraph/backend/store/cassandra/CassandraTables.java:310-323 | Each scanned row yields its delete, in order, until a row fails. |
| `TableWrites.StageScanned` | hugegraph-cassandra/src/main/java/com/baidu/hugegraph/backend/store/cassandra/CassandraTables.java:310-323 | The row loop stages exactly `StageRows`' deletes and reports its error. |
| `TableWrites.ScanThenDelete` | hugegraph-cassandra/src/main/java/com/baidu/hugegraph/backend/store/cassandra/CassandraTables.java:291-324 | Executes the scan, then stages the deletes its rows call for. A driver failure stages nothing. |
| `TableWrites.IndexDeleteLabel` | hugegraph-cassandra/src/main/java/com/baidu/hugegraph/backend/store/cassandra/CassandraTables.java:389-403 | Succeeds exactly when there are no field values and a non-empty index label. Field values are checked first. |
| `TableWrites.EdgeDelete` | hugegraph-cassandra/src/main/java/com/baidu/hugegraph/backend/store/cassandra/CassandraTables.java:270-289 | The edge delete does what `DeleteOutcome` states for the edge table. |
| `TableWrites.SecondaryIndexDelete` | hugegraph-cassandra/src/main/java/com/baidu/hugegraph/backend/store/cassandra/CassandraTables.java:389-426 | The secondary index delete checks the entry, then scans and deletes. |
| `TableWrites.SearchIndexDelete` | hugegraph-cassandra/src/main/java/com/baidu/hugegraph/backend/store/cassandra/CassandraTables.java:470-489 | The search index delete checks the entry, then stages one delete of the label's partition. |
| `TableWrites.Delete` | hugegraph-cassandra/src/main/java/com/baidu/hugegraph/backend/store/cassandra/CassandraTable.java:458-486 | `delete`, dispatched to the table's override. |
| `TableWrites.Insert` | hugegraph-cassandra/src/main/java/com/baidu/hugegraph/backend/store/cassandra/CassandraTables.java:428-433 | The index tables refuse inserts and stage nothing. Other tables stage the base insert. |
| `TableWrites.EdgeDeleteScansOnlyForLabel` | hugegraph-cassandra/src/main/java/com/baidu/hugegraph/backend/store/cassandra/CassandraTables.java:280-288 | The edge table scans exactly when the id has one part and there are no columns. Otherwise it uses the base delete. |
| `TableWrites.DeleteByLabelOnePerRow` | hugegraph-cassandra/src/main/java/com/baidu/hugegraph/backend/store/cassandra/CassandraTables.java:291-324 | Deleting by label runs one select on the label. Each matching row yields one delete by owner, direction and label. |
| `TableWrites.IndexDeleteChecksFirst` | hugegraph-cassandra/src/main/java/com/baidu/hugegraph/backend/store/cassandra/CassandraTables.java:389-403 | An invalid index delete fails before any scan or staging, with field values checked first. |
| `TableWrites.SecondaryIndexDeleteOnePerRow` | hugegraph-cassandra/src/main/java/com/baidu/hugegraph/backend/store/cassandra/CassandraTables.java:405-425 | Selects the label's rows with filtering allowed, then stages one delete per row by label and field values. |
| `TableWrites.SearchIndexDeleteOne` | hugegraph-cassandra/src/main/java/com/baidu/hugegraph/backend/store/cassandra/CassandraTables.java:486-488 | Stages exactly one delete keyed by the label and selects nothing. |
| `Schema.AppendColumns` | hugegraph-cassandra/src/main/java/com/baidu/hugegraph/backend/store/cassandra/CassandraTable.java:543-550 | The column loop writes `ColumnDecls`. |
| `Schema.AppendPartitionKeys` | hugegraph-cassandra/src/main/java/com/baidu/hugegraph/backend/store/cassandra/CassandraTable.java:556-563 | The partition keys are written in their parentheses. |
| `Schema.PartitionLoop` | hugegraph-cassandra/src/main/java/com/baidu/hugegraph/backend/store/cassandra/CassandraTable.java:557-562 | The partition loop writes `PartitionList`, with the separator test as written. |
| `Schema.AppendClusteringKeys` | hugegraph-cassandra/src/main/java/com/baidu/hugegraph/backend/store/cassandra/CassandraTable.java:566-569 | The clustering loop writes `ClusterList`. |
| `Schema.BuildCreateTable` | hugegraph-cassandra/src/main/java/com/baidu/hugegraph/backend/store/cassandra/CassandraTable.java:527-579 | A column/type count mismatch fails the assertion. Otherwise the result is the full `CREATE TABLE` statement. |
| `Schema.TextTypes` | hugegraph-cassandra/src/main/java/com/baidu/hugegraph/backend/store/cassandra/CassandraTable.java:491-494 | Every column gets type text. |
| `Schema.SplitPrimaryKeys` | hugegraph-cassandra/src/main/java/com/baidu/hugegraph/backend/store/cassandra/CassandraTable.java:503-511 | Fails exactly on no keys. Otherwise the first key is the only partition key and the rest cluster, in order. |
| `Schema.CreateTable` | hugegraph-cassandra/src/main/java/com/baidu/hugegraph/backend/store/cassandra/CassandraTable.java:527-579 | A column/type count mismatch fails and sends nothing. Otherwise exactly the statement is sent, and the call fails with a driver failure exactly when the cluster refuses it. |
| `Schema.CreateTextTable` | hugegraph-cassandra/src/main/java/com/baidu/hugegraph/backend/store/cassandra/CassandraTable.java:516-525 | Sends the statement with all columns typed text. It fails exactly when the cluster refuses it. |
| `Schema.CreateTableByPrimaryKeys` | hugegraph-cassandra/src/main/java/com/baidu/hugegraph/backend/store/cassandra/CassandraTable.java:498-514 | Empty primary keys fail and send nothing. Otherwise the first key is the partition key and the rest are clustering keys, with the outcomes of `Schema.CreateTable`. |
| `Schema.CreateTextTableByPrimaryKeys` | hugegraph-cassandra/src/main/java/com/baidu/hugegraph/backend/store/cassandra/CassandraTable.java:488-496 | The same as the previous overload, with all columns typed text. |
| `Schema.KeyListReadsBack` | hugegraph-cassandra/src/main/java/com/baidu/hugegraph/backend/store/cassandra/CassandraTable.java:553-572 | A key list written as names and split again reads back as the keys. |
| `Schema.PartitionListIsJoin` | hugegraph-cassandra/src/main/java/com/baidu/hugegraph/backend/store/cassandra/CassandraTable.java:557-562 | The partition list is the ", "-join of the names when the first key does not recur. |
| `Schema.ClusterListIsJoin` | hugegraph-cassandra/src/main/java/com/baidu/hugegraph/backend/store/cassandra/CassandraTable.java:566-569 | The clustering list is ", " followed by the join of the names. |
| `Schema.RepeatedFirstKeyLosesSeparator` | hugegraph-cassandra/src/main/java/com/baidu/hugegraph/backend/store/cassandra/CassandraTable.java:558 | A repeated first key is written without its separator. |
| `Schema.PrimaryKeyClause` | hugegraph-cassandra/src/main/java/com/baidu/hugegraph/backend/store/cassandra/CassandraTable.java:552-572 | The primary key clause lists the partition keys in inner parentheses, then the clustering keys. Both lists read back. |
| `Sessions.Session.ExecuteSchema` | hugegraph-cassandra/src/main/java/com/baidu/hugegraph/backend/store/cassandra/CassandraTable.java:578 | `session.execute` of a schema statement sends it (the schema log grows by exactly it) and reports whether the cluster ran it. Batch and selects are unchanged. |
| `Schema.CreateIndex` | hugegraph-cassandra/src/main/java/com/baidu/hugegraph/backend/store/cassandra/CassandraTable.java:586-601 | Sends exactly the `CREATE INDEX` statement on the column. It fails with a driver failure exactly when the cluster refuses it. |
| `Schema.IndexedColumnReadsBack` | hugegraph-cassandra/src/main/java/com/baidu/hugegraph/backend/store/cassandra/CassandraTable.java:586-601 | The indexed column parses back from the statement. |
| `Metadata.SplitsHandler` | hugegraph-cassandra/src/main/java/com/baidu/hugegraph/backend/store/cassandra/CassandraTable.java:95-103 | Succeeds exactly with one argument that is a boxed `Long`, and then asks for the table's splits from 0 of that size. A wrong count is an illegal argument, a null argument a null-pointer failure, and an argument of any other class (an `Integer`, a `Double`) a class-cast failure. |
| `Metadata.Metadata` | hugegraph-cassandra/src/main/java/com/baidu/hugegraph/backend/store/cassandra/CassandraTable.java:86-92 | An unregistered name fails. A registered name runs its handler. |
| `Metadata.MetadataSucceedsOnlyForSplits` | hugegraph-cassandra/src/main/java/com/baidu/hugegraph/backend/store/cassandra/CassandraTable.java:86-103 | `metadata` succeeds exactly for "splits" with one boxed `Long` argument, asking for this table's splits from 0. Any other name fails before the arguments are looked at. |

## Left out

- Computing token-range splits is not modelled (`CassandraShard`, the keyspace).
  `Metadata.Metadata` yields the request the splitter would receive.
- Why the cluster refuses a schema statement is not modelled. `Sessions.Session.accepts`
  is a parameter of the session, and `Schema` reports a refusal as `DriverFailure`.
- `Entries.GetObject`: a name in double quotes, which the driver matches
  case-sensitively, is matched ignoring case here. The names `result2Entry`
  passes come from the row's own column definitions and are not quoted.
- `init`, `dropTable` and `clear` are not modelled. The table
  definitions' `init` calls a map-based `createTable` overload that is not
  part of this model.
- Logging is not modelled.
- Concurrency is not modelled. The scan-then-delete of the edge and secondary
  index tables is not atomic, and only its sequential effect is modelled.
- The DataStax query builder, the driver's row codec and CQL rendering are not
  modelled. Statements are datatypes, and a driver row is a list of
  (column name, value) pairs.
- `Clauses.needAllowFiltering` is a parameter. The clause syntax it inspects
  is not part of this model.
- `Mutations.Apply` states CQL's collection semantics as assumed, not as
  derived from the store. In particular, it assumes that an `append` of a set,
  map or list adds its elements. The driver's `QueryBuilder.append(name, value)`
  is documented as adding one list element. `Mutations.EliminateUndoesAppend`
  therefore holds for the assumed semantics, not for what the driver sends.
- `Keys.ToUpper`: upper-casing maps the ASCII letters a-z only and ignores the
  locale. Java's `String.toUpperCase()` follows the JVM's default locale and
  full Unicode case mapping. For example, "ı" (dotless i) becomes "I" in Java
  but stays as it is in the model, so `parseKey("ıd")` is `ID` in Java and no
  key here.
- `Keys.ParseKeyMeaning`: states `parseKey` with the ASCII, locale-free
  upper-casing of `Keys.ToUpper`. Under a Turkish or Azeri default locale, Java
  upper-cases "id" to "İD" and `valueOf` throws. The model does not capture this.
- `Keys.ParseFormatted`: the round trip is proved for the ASCII, locale-free
  upper-casing. Under a Turkish or Azeri default locale, the lower-cased name
  of any key with an "i" (for example "id") does not read back in Java.
- Java's hash-map iteration order is left open. Entry columns are maps, and
  statements built from them are specified for some order that visits each
  column once. The edge merge is specified up to order.
- `Merge.EdgeMergeEntries`: the result is a permutation of the first-seen
  vertex order, not that order, because the source returns
  `HashMap.values()`.
- Query orderings are a sequence in the query's own iteration order.
- A query's conditions, a `Set<Condition>` in the source, are a sequence.
  Its order is the set's iteration order and decides which compile error is
  reported first. The sequence may hold duplicates, which compile to the same
  clause twice.
- `Queries.NewBaseSelect`: the truncating `(int)` cast of the limit can give
  zero or a negative number (2^32 gives 0). The driver's `limit(int)` refuses
  those. The model keeps them in the select and does not model the refusal.
- Identifier splicing and splitting are foreign. An id is given as its parts,
  and its string form joins them with '>' without escaping.
- Reading a null or non-text column as a string gives a `MissingColumn`
  error. In the delete scans (hugegraph-cassandra/src/main/java/com/baidu/hugegraph/backend/store/cassandra/CassandraTables.java:313-319,
  hugegraph-cassandra/src/main/java/com/baidu/hugegraph/backend/store/cassandra/CassandraTables.java:419-423), the source reads a null `OWNER_VERTEX`, `DIRECTION` or
  `FIELD_VALUES` as null and stages a delete comparing that column with null.
  The model reports `MissingColumn` instead and stages nothing for that row. A
  non-text column makes the driver throw; the model reports `MissingColumn`
  there too.
- `SecondaryIndex` and `SearchIndex` take their `idColumnValue` from
  `CassandraTable`, which gives one part, while they declare two id columns.
  As written, id-addressed updates and deletes on them fail the arity
  assertion. Queries by id on them always fail with the unsupported-id-format
  error (hugegraph-cassandra/src/main/java/com/baidu/hugegraph/backend/store/cassandra/CassandraTable.java:182-188).
- `idColumnName` is a list of keys, compared by name.
- Column types are the four the tables declare (text, decimal, set of text,
  map of text to text).
