# SQLancer differential-testing core, modelled in Dafny

SQLancer looks for logic bugs in SQL engines. It runs a query, runs a logically
equivalent partitioned form of it (`WHERE p`, `WHERE NOT p`, `WHERE p IS NULL`),
recombines the partitions and checks that both sides return the same values.
This project models four pieces of that machinery and proves properties of them:

- `comparator.dfy` (module `Comparator`, from `src/sqlancer/ComparatorHelper.java`).
  - The result collector turns one query's outcome into a first-column
    projection, a skip (`IgnoreMeException`) or a hard failure (`AssertionError`).
  - The equivalence checker compares cardinalities first, then contents as sets.
    On a mismatch it appends two replay lines.
  - Two combiners rebuild a partitioned result. One runs a single
    `UNION ALL`/`UNION` query. The other concatenates three executions client-side.
  - Lemmas show that a correct engine, returning each partition's rows in any
    order, never makes the checker report a bug. They
    also show that the `UNION ALL` and concatenation modes give the same verdict.
- `expected_errors.dfy` (module `ExpectedErrors`, from `src/sqlancer/common/query/ExpectedErrors.java`).
  The expected-error classifier: an append-only pair of sets (literal substrings and
  regular expressions), its builder, and its membership test.
- `stonedb_schema.dfy` (module `StoneDBSchema`, from `src/sqlancer/stonedb/StoneDBSchema.java`).
  The type-name decoder, the byte-size table, index-name quoting and the per-row
  rules applied to `information_schema` rows.
- `cockroach_scheduler.dfy` (module `CockroachScheduler`, from `src/sqlancer/cockroachdb/CockroachDBProvider.java`).
  The per-action budgets and the weighted random scheduling loop of `generateAndTestDatabase`.
- `text.dfy` (module `Text`) holds the Java string operations the core relies on:
  `contains`, `startsWith`, `Collectors.joining` and `%d`. `wrappers.dfy` holds
  `Option` (Java `null`) and `Result` (a thrown exception).

Modelling choices:

- Executing a query is a parameter `exec: string -> Outcome`. An `Outcome` is one of:
  - rows of columns;
  - no result set;
  - a `NumberFormatException`;
  - another exception with its possibly-null message.
- Regular-expression matching (`Pattern.matcher(m).find()`) is a parameter `finds`.
- A `HashSet`'s `toString` has no fixed iteration order, so it is a parameter `show`.
- The random source of the scheduler is given as values:
  - `draws[i]` is what `r.getInteger(0, …)` returned for the action of ordinal `i`;
  - `selections[k]` is what `r.getInteger(0, total)` returned in round `k`.
  Since `total` is exactly `initial − k` in round `k`, the selection range is
  stated as `0 <= selections[k] < initial − k`.
- The replay log (`state.getState().statements`) and the `combinedString` list are
  passed in as sequences of strings and returned updated.

Notes on what the Java code does, which the model follows:

- `getCombinedResultSet` in client-side mode appends `q1`, `q2`, `q3` to the
  combined-query list only after all three executions returned normally. The
  union modes append the combined text before executing it.
- `ComparatorHelper` compares the values exactly as the driver returned them.
  It does no per-row normalisation of trailing fractional zeros, and it has no
  overload of the checker taking a canonicalisation function.
- `getCombinedResultSetNoDuplicates` has no client-side mode. It fails when
  `asUnion` is false.

## Model

| member | source | states |
|---|---|---|
| `Text.ContainsIsSubstring` | src/sqlancer/common/query/ExpectedErrors.java:91-95 | the computed `contains` test holds exactly when the literal occurs at some position of the message |
| `Text.ContainsAny` | src/sqlancer/ComparatorHelper.java:71-75 | the inline loop over the expected literals finds a hit exactly when some literal occurs in the message, whatever the set's iteration order |
| `Text.StartsWith` | src/sqlancer/stonedb/StoneDBSchema.java:93 | `startsWith` holds exactly when the prefix occurs at index 0, and the prefix then occurs in the string |
| `Text.Join` | src/sqlancer/ComparatorHelper.java:92 | joining no parts gives the empty string and one part gives that part unchanged; with more parts the text begins with the first part followed by the separator |
| `Text.JoinSnoc` | src/sqlancer/ComparatorHelper.java:92 | joining one more part appends the separator and then that part, so the joined text is exactly the parts with one separator between neighbours |
| `Text.JoinContainsParts` | src/sqlancer/ComparatorHelper.java:111 | every combined query occurs in the `;`-joined text written to the replay line |
| `Comparator.FirstColumn` | src/sqlancer/ComparatorHelper.java:56-58 | one value per row, in row order, each the row's first column; SQL NULL stays `None` |
| `Comparator.CollectFirstColumn` | src/sqlancer/ComparatorHelper.java:48-76 | rows give their projection; no result set and `NumberFormatException` skip; a null message fails with the query text; a message skips exactly when it contains an expected literal, and fails with the query text otherwise |
| `Comparator.CollectorAgreesWithClassifier` | src/sqlancer/ComparatorHelper.java:71-75 | the collector's inline literal test is the classifier's verdict for a classifier holding the same literals and no patterns |
| `Comparator.Elements` | src/sqlancer/ComparatorHelper.java:100-101 | the hash set built from a result holds exactly the values occurring in it |
| `Comparator.Compare` | src/sqlancer/ComparatorHelper.java:88-117 | equal exactly when cardinalities agree and the same values occur on both sides; a cardinality mismatch exactly when sizes differ; on a content mismatch the misses are exactly the two set differences and at least one is non-empty |
| `Comparator.CompareSymmetric` | src/sqlancer/ComparatorHelper.java:88-117 | exchanging the two results exchanges the sizes or the misses and keeps the verdict |
| `Comparator.CompareReflexive` | src/sqlancer/ComparatorHelper.java:88-103 | every result passes against itself |
| `Comparator.CompareIgnoresOrder` | src/sqlancer/ComparatorHelper.java:100-103 | the verdict depends on each side only through its multiset of values, so row order never matters |
| `Comparator.DuplicatesAreInvisible` | src/sqlancer/ComparatorHelper.java:100-103 | `[1,1,2]` and `[1,2,2]` differ as multisets yet pass: duplicate counts are not checked at equal cardinality |
| `Comparator.CompareExamples` | src/sqlancer/ComparatorHelper.java:88-117 | `[1,2,2]` vs `[1,2]` is a 3-vs-2 cardinality mismatch; `[1,2]` vs `[2,1]` passes; `[1,1]` vs `[1,2]` misses nothing on the left and `2` on the right |
| `Comparator.CardinalityLine` | src/sqlancer/ComparatorHelper.java:89-92 | the replay line is the query, then `; -- cardinality: `, then a non-empty run of decimal digits without a leading zero, which reads back as the size |
| `Comparator.MissesLine` | src/sqlancer/ComparatorHelper.java:108-111 | the replay line is the query, then `; -- misses: `, then exactly the rendering of the set of misses |
| `Comparator.CardinalityLineDeterminesSize` | src/sqlancer/ComparatorHelper.java:89-92 | a `-- cardinality: n` replay line records `n` unambiguously |
| `Comparator.AssumeResultSetsAreEqual` | src/sqlancer/ComparatorHelper.java:86-118 | passes exactly when cardinalities agree and the value sets are equal, leaving the log unchanged; otherwise fails after appending exactly two lines: the cardinality lines of the original and of the `;`-joined combined queries, or their misses lines with the two set differences; the `AssertionError` message starts with "the size of the result sets mismatch (n1 and n2)!" or "the content of the result sets mismatch!" and contains both appended lines |
| `Comparator.GetCombinedResultSet` | src/sqlancer/ComparatorHelper.java:120-142 | union mode records `q1 UNION ALL q2 UNION ALL q3` before running it and returns its projection; otherwise the result is the in-order concatenation of the three projections, recorded as `q1`,`q2`,`q3` only when all three return normally, and the first skip or failure ends the call unrecorded |
| `Comparator.GetCombinedResultSetNoDuplicates` | src/sqlancer/ComparatorHelper.java:144-155 | fails without message or record when `asUnion` is false; otherwise records exactly `q1 UNION q2 UNION q3` and returns its projection |
| `Comparator.UnionModeMatchesConcatenationValues` | src/sqlancer/ComparatorHelper.java:144-155 | on an engine whose `UNION` is set union, the duplicate-eliminating combination returns the same values as the three partitions concatenated client-side |
| `Comparator.CorrectEngineReportsNoBug` | src/sqlancer/ComparatorHelper.java:86-142 | when the engine evaluates the base and the three partition queries correctly, each partition's rows in any order, client-side combination followed by the checker neither skips nor fails, and the log is unchanged |
| `Comparator.UnionAllModeMatchesConcatenation` | src/sqlancer/ComparatorHelper.java:124-139 | on an engine whose `UNION ALL` is a multiset union, the single-query mode and the client-side mode give the same checker verdict against any base result |
| `ExpectedErrors.Add` | src/sqlancer/common/query/ExpectedErrors.java:29-35 | a null literal raises an argument error; a non-null one always succeeds, adding exactly that literal and leaving the patterns untouched |
| `ExpectedErrors.AddRegex` | src/sqlancer/common/query/ExpectedErrors.java:37-43 | a null pattern raises an argument error; a non-null one always succeeds, adding exactly that pattern and leaving the literals untouched |
| `ExpectedErrors.AddAll` | src/sqlancer/common/query/ExpectedErrors.java:50-53 | a null list fails with a null-pointer error; a non-null one always succeeds, the literals becoming the old ones plus the list's elements and the patterns untouched |
| `ExpectedErrors.AddAllRegexes` | src/sqlancer/common/query/ExpectedErrors.java:55-61 | a null list raises an argument error; a non-null one always succeeds, the patterns becoming the old ones plus the list's elements and the literals untouched |
| `ExpectedErrors.ErrorIsExpected` | src/sqlancer/common/query/ExpectedErrors.java:87-102 | a null message raises an argument error; otherwise the answer is true exactly when some literal occurs in the message or some pattern finds a match in it |
| `ExpectedErrors.EmptyExpectsNothing` | src/sqlancer/common/query/ExpectedErrors.java:19-22 | a freshly constructed classifier expects no message |
| `ExpectedErrors.AddIsMonotone` | src/sqlancer/common/query/ExpectedErrors.java:29-35 | after `add(s)` every message expected before is still expected, and every message containing `s` is expected |
| `ExpectedErrors.AddRegexIsMonotone` | src/sqlancer/common/query/ExpectedErrors.java:37-43 | after `addRegex(p)` every message expected before is still expected, and every message `p` matches is expected |
| `ExpectedErrors.EmptyLiteralExpectsEverything` | src/sqlancer/common/query/ExpectedErrors.java:91-95 | once the empty literal is added, every non-null message is expected |
| `ExpectedErrors.AddEachErrors` | src/sqlancer/common/query/ExpectedErrors.java:29-35 | a run of `add` calls leaves exactly the old literals plus the added ones |
| `ExpectedErrors.AddOrderIrrelevant` | src/sqlancer/common/query/ExpectedErrors.java:16-21 | insertion sequences with the same elements, in any order and with any repetition, build the same classifier |
| `ExpectedErrors.With` | src/sqlancer/common/query/ExpectedErrors.java:108-111 | the builder's literals become the old ones plus the given ones; its patterns are untouched |
| `ExpectedErrors.WithPatterns` | src/sqlancer/common/query/ExpectedErrors.java:113-116 | the builder's patterns become the old ones plus the given ones; its literals are untouched |
| `ExpectedErrors.Build` | src/sqlancer/common/query/ExpectedErrors.java:125-127 | the classifier holds exactly the builder's literals and patterns |
| `ExpectedErrors.BuiltExpected` | src/sqlancer/common/query/ExpectedErrors.java:104-128 | a classifier built with `with(literals)`, `with(patterns)` and `build()` expects a message exactly when one of the literals occurs in it or one of the patterns matches it |
| `ExpectedErrors.From` | src/sqlancer/common/query/ExpectedErrors.java:70-72 | the classifier holds no patterns, and its literals are exactly the arguments |
| `ExpectedErrors.FromIsAddEach` | src/sqlancer/common/query/ExpectedErrors.java:70-72 | `from(e1..en)` is the same classifier as a fresh one followed by `add(e1)`…`add(en)` |
| `ExpectedErrors.FromExpected` | src/sqlancer/common/query/ExpectedErrors.java:70-72 | `from(e1..en)` expects a message exactly when some `ei` occurs in it |
| `StoneDBSchema.OfType` | src/sqlancer/stonedb/StoneDBSchema.java:303-330 | the one-argument constructor keeps the type and sets a size of 1 to 8 bytes exactly for the seven numeric types, -1 for all others |
| `StoneDBSchema.OfTypeSizes` | src/sqlancer/stonedb/StoneDBSchema.java:303-330 | TINYINT 1, SMALLINT 2, MEDIUMINT 3, INT 4, BIGINT 8, FLOAT 4 and DOUBLE 8 bytes; -1 for every other type |
| `StoneDBSchema.PrimitiveOfType` | src/sqlancer/stonedb/StoneDBSchema.java:332-334 | `getPrimitiveDataType()` of a value built by the one-argument constructor is the type it was built from |
| `StoneDBSchema.GetSize` | src/sqlancer/stonedb/StoneDBSchema.java:336-341 | returns the size unless it is -1, and fails carrying the type otherwise |
| `StoneDBSchema.ColumnCompositeDataType` | src/sqlancer/stonedb/StoneDBSchema.java:138-193 | a decoded type has the given string as its name and the constructor's size; a failure carries the string, and happens only when no type has that name |
| `StoneDBSchema.ColumnType` | src/sqlancer/stonedb/StoneDBSchema.java:195-250 | a decoded type has the given string as its name; a failure carries the string, and happens only when no type has that name |
| `StoneDBSchema.TypeNameInjective` | src/sqlancer/stonedb/StoneDBSchema.java:138-192 | no two of the 25 types share a name |
| `StoneDBSchema.DecodeTypeName` | src/sqlancer/stonedb/StoneDBSchema.java:138-250 | each type's name decodes back to that type with both decoders |
| `StoneDBSchema.DecodersAgree` | src/sqlancer/stonedb/StoneDBSchema.java:138-250 | `getColumnType(s)` is `getColumnCompositeDataType(s).getPrimitiveDataType()` for every `s`, failures included |
| `StoneDBSchema.DecodedSizeDefined` | src/sqlancer/stonedb/StoneDBSchema.java:336-341 | for a decoded column type, `getSize` succeeds exactly on the seven numeric types |
| `StoneDBSchema.RandomWithoutNull` | src/sqlancer/stonedb/StoneDBSchema.java:28-53 | succeeds exactly for the five integer types, keeping the picked type, and fails carrying the type otherwise |
| `StoneDBSchema.RandomSizesMatchConstructor` | src/sqlancer/stonedb/StoneDBSchema.java:31-49 | the explicit sizes of `getRandomWithoutNull` equal the one-argument constructor's sizes |
| `StoneDBSchema.IndexName` | src/sqlancer/stonedb/StoneDBSchema.java:77-84 | `PRIMARY` is returned back-quoted and any other name unchanged, so the bare reserved word is never returned |
| `StoneDBSchema.IndexNameIdempotent` | src/sqlancer/stonedb/StoneDBSchema.java:77-84 | applying the quoting to a returned name changes nothing |
| `StoneDBSchema.HasPrimaryKey` | src/sqlancer/stonedb/StoneDBSchema.java:62-64 | true exactly when some column of the table is a primary key |
| `StoneDBSchema.AnyPrimaryKey` | src/sqlancer/stonedb/StoneDBSchema.java:62-64 | the `anyMatch` scan finds a primary-key column exactly when one exists |
| `StoneDBSchema.DecodeColumn` | src/sqlancer/stonedb/StoneDBSchema.java:124-132 | fails carrying the type name exactly when it is unknown; otherwise the column keeps name and precision, its type has that name and the one-argument constructor's size, it is nullable exactly when `IS_NULLABLE` is not `NO`, and it is a primary key exactly when `COLUMN_KEY` is `PRI` |
| `StoneDBSchema.DecodeColumns` | src/sqlancer/stonedb/StoneDBSchema.java:118-136 | succeeds exactly when every row decodes, giving one column per row in order; a failure carries the type name of the first row that does not decode, every earlier row decoding |
| `StoneDBSchema.TableNames` | src/sqlancer/stonedb/StoneDBSchema.java:252-264 | a NULL `ENGINE` fails, at the first row that has one, as `equals` on null throws; otherwise a name is kept exactly when some row with that name has engine `TIANMU` |
| `StoneDBSchema.TableNamesSnoc` | src/sqlancer/stonedb/StoneDBSchema.java:257-261 | rows are read in order: one more row with a NULL `ENGINE` fails at that row unless an earlier row failed; otherwise its name is appended exactly when its engine is `TIANMU`, so names keep row order and repeats |
| `StoneDBSchema.IsView` | src/sqlancer/stonedb/StoneDBSchema.java:93 | a table is a view exactly when its name starts with `v` |
| `StoneDBSchema.MakeTable` | src/sqlancer/stonedb/StoneDBSchema.java:93-94 | the table keeps its name, columns and indexes, and is a view exactly when its name starts with `v` |
| `CockroachScheduler.Ordinal` | src/sqlancer/cockroachdb/CockroachDBProvider.java:46-102 | each action's ordinal is its position in `Action.values()` |
| `CockroachScheduler.Budget` | src/sqlancer/cockroachdb/CockroachDBProvider.java:189-229 | COMMENT ON, SCRUB and TRANSACTION always get 0; each of the twelve other actions, named one by one, gets the value drawn for it, so no action reaches the default case |
| `CockroachScheduler.AssignBudgets` | src/sqlancer/cockroachdb/CockroachDBProvider.java:184-235 | every action gets its budget at its ordinal, `total` is the sum of the budgets, and `actions` lists exactly the actions with a non-zero budget in ordinal order |
| `CockroachScheduler.WindowsOrdered` | src/sqlancer/cockroachdb/CockroachDBProvider.java:240-248 | the windows scanned follow each other: an earlier one ends before a later one starts |
| `CockroachScheduler.WindowUnique` | src/sqlancer/cockroachdb/CockroachDBProvider.java:240-248 | no selection lies in two windows |
| `CockroachScheduler.Pick` | src/sqlancer/cockroachdb/CockroachDBProvider.java:239-250 | an index is found exactly when `0 <= selection < total`; it is the unique one whose window holds the selection, and its remaining count is positive |
| `CockroachScheduler.SumDecrement` | src/sqlancer/cockroachdb/CockroachDBProvider.java:251 | decrementing one positive entry decrements the sum, so `total == sum(nrRemaining)` survives each round |
| `CockroachScheduler.SumZero` | src/sqlancer/cockroachdb/CockroachDBProvider.java:237 | when `total` reaches zero every remaining count is zero |
| `CockroachScheduler.Retry` | src/sqlancer/cockroachdb/CockroachDBProvider.java:253-265 | between 1 and 1001 tries; every try but the last returned `false`; success exactly when the last try returned `true`; a last try returning `false` means all 1001 were used; a last try that threw ends the loop |
| `CockroachScheduler.AttemptedStep` | src/sqlancer/cockroachdb/CockroachDBProvider.java:253-265 | a round after rounds that did not abort extends the record of tries, and the run is aborted exactly when that round's last try threw past the `IgnoreMeException` handler |
| `CockroachScheduler.Round` | src/sqlancer/cockroachdb/CockroachDBProvider.java:238-272 | one round picks the action whose window over the current counts holds the selection, takes one from its count and from `total`, and keeps every count plus its choices equal to the budget |
| `CockroachScheduler.Schedule` | src/sqlancer/cockroachdb/CockroachDBProvider.java:237-273 | round `k` chooses the action whose window, over the counts left by the rounds before it, holds `selections[k]`; `rounds[k]` is its number of tries, between 1 and 1001, as `Retry` describes; only the last round can abort, and an abort ends the loop; no action is chosen more often than its budget, and without an abort the loop runs exactly `total` rounds and chooses each action exactly its budgeted number of times |
| `CockroachScheduler.ScheduleEnd` | src/sqlancer/cockroachdb/CockroachDBProvider.java:237-273 | when the loop stops, the choices fit the budgets, and unless a try aborted every budget has been used up exactly |
| `CockroachScheduler.Run` | src/sqlancer/cockroachdb/CockroachDBProvider.java:184-273 | after budgeting and scheduling, every round made 1 to 1001 tries as `Retry` describes; no action is chosen more often than its budget, exactly as often when no try aborted, so COMMENT ON, SCRUB and TRANSACTION never are |

## Left out

- `ComparatorHelper.isEqualDouble` and `equals`: floating-point comparison with a relative epsilon and Java's `Double.parseDouble`. Nothing else in the modelled core calls them.
- The collector's `logEachSelect` logging and flush, and the closing of statements and result sets in `finally`. These are I/O with no effect on the returned value.
- `QueryAdapter.executeAndGet` and JDBC are not part of this model. Their whole effect is the `Outcome` that `exec` returns. An `IgnoreMeException` raised inside `executeAndGet` is rethrown unchanged by the collector, so it is represented by `NoResult`, which also ends in a skip.
- `Comparator.CollectFirstColumn`: an expected-error set containing `null` is not modelled, because literals are `string`. In Java, `contains(null)` inside the catch block would throw a `NullPointerException`.
- `ExpectedErrors.AddAll`, `ExpectedErrors.With`: null elements inside a non-null list are not modelled, because literals are `string`. Java's `HashSet` would accept them, and `errorIsExpected` would later throw on them.
- `addRegexString`, `addAllRegexStrings` and the builder's `withRegex` compile patterns with `Pattern.compile`. That is a foreign library with no contract to state here.
- `StoneDBSchema.fromConnection`, `getIndexes`, `getTableColumns` and `getTableNames` issue SQL queries. Only their per-row decoding and filtering rules are modelled, with the rows as inputs.
- `StoneDBSchema.TableNames`: a NULL `TABLE_NAME` is not modelled, because table names are `string`; `information_schema.TABLES` does not report one.
- `StoneDBSchema.DecodeColumn`: `getString` returning null for `IS_NULLABLE` or `COLUMN_KEY` is not modelled, because the row fields are `string`. Java's `equals` call would throw a `NullPointerException`.
- The draw ranges of `Randomly.getInteger` are not modelled because `Randomly` is not part of this model. The upper arguments are recorded in `CockroachScheduler.Budget`'s comment. Draws are arbitrary naturals.
- `CockroachScheduler.Schedule`, `CockroachScheduler.ScheduleEnd`, `CockroachScheduler.Run`: two things in the scheduling loop are not modelled:
  - the schema refresh after a schema-affecting statement;
  - the `IgnoreMeException` that abandons the rest of the schedule when no table remains.
  Both depend on the live schema. A statement that throws any other exception is modelled as `Aborted`, which ends the schedule.
- `ExpectedErrors.Pattern`: a Java `Pattern` has identity equality, so two compiled copies of one expression are two set elements. Here a pattern is its text and flags, so equal copies are one element. This does not change any verdict. What a pattern matches is left to the `finds` parameter.
- `CockroachScheduler.AssignBudgets`: Java's 32-bit `total` is modelled as an unbounded natural. Overflow would need a configured maximum of inserts near 2^31.
- The rest of `CockroachDBProvider` is not modelled:
  - connection and database creation, cluster settings, table creation;
  - the per-action random SQL generators;
  - the oracle loop.
- `MySQLProvider`, `DuckDBProvider`, `ClickhouseProvider`, `SQLite3Options`, `DorisBugs`, the ClickHouse generators, `DatabendQueryPartitioningHavingTester`, `TestOracle` and `TestDuckDB` are not modelled. They are provisioning, option parsing, random SQL generation, orchestration over a query tree and visitor that are not part of this model, or an end-to-end run against a live engine.
- `StateToReproduce` is represented only by its `statements` list, as the replay log.
