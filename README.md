# LibSQL adapter for Better Auth: SQL statement assembly

This project models, in Dafny, the core of the LibSQL adapter for the Better Auth
authentication framework (`src/index.ts`):

- **The WHERE-clause compiler** `buildWhereClause`. It turns a list of
  `{field, value, operator?, connector?}` conditions into a SQL fragment (`""` or
  `" WHERE c1 AND c2 …"`) and the positional arguments for its `?` placeholders.
- **The statement assembly and result shaping** of the eight adapter operations:
  `create`, `update`, `updateMany`, `delete`, `deleteMany`, `findOne`, `findMany`
  and `count`. Each builds one `{sql, args}` statement, hands it to
  `client.execute`, and reduces what comes back to a row, `null`, a row list, a
  row count or the `count` column.

Files:

| file | module | contents |
|---|---|---|
| `wrappers.dfy` | `Wrappers` | `Option` (JavaScript `undefined`) and `Result` (a thrown error) |
| `values.dfy` | `Values` | the values that are bound or stored, and `String(v)` as a template literal prints them |
| `errors.dfy` | `Errors` | the errors thrown, with their messages |
| `text.dfy` | `Text` | `join`, placeholder lists, and `Inline`: what binding arguments to placeholders means |
| `where_clause.dfy` | `WhereClause` | `buildWhereClause` as a loop, its specification, and its properties |
| `adapter.dfy` | `Adapter` | statements, result shaping and the operations, with their properties |

**What "the placeholders line up with the arguments" means here.** `Text.Inline(sql, args)`
walks the SQL text and replaces the i-th `?` by `Bound(args[i])`. It is `None` when
the counts differ. The main theorems say that for every operation, `Inline` of the
generated statement is `Some` of an independently written expected form. In that
form each condition's placeholders hold that condition's own value:
`field = <value>`, `field LIKE <"%v%">`, `field IN (<v1>, …, <vn>)`. Each SET column
holds its own new value, and LIMIT and OFFSET hold theirs. So the statement has as
many `?` as arguments, and they match one to one, in order. These theorems assume
that table, column and field names contain no `?`. The adapter trusts those names
and inserts them into the SQL as they are.

**The database client** is a parameter `execute: Statement -> ClientOutcome`. It
either resolves to `{rows, rowsAffected}` or throws with a message. What SQLite
does with a statement is outside the model.

Behaviour of the code that is easy to miss:
- An unsupported operator is thrown by `buildWhereClause`, which every operation that takes a `where` calls outside its `try`. So that error reaches the caller unwrapped, with no "… operation failed" prefix (`WhereErrorsEscape`).
- A `create` that returns no row fails with "Create operation failed: Failed to create record in <model>".
- A `count` result without a `count` column fails with "Count operation failed: Count query returned invalid result".
- In `findOne`, an empty `select` array gives an empty column list. `create` falls back to `*` instead.

## Model

| member | source | states |
|---|---|---|
| `WhereClause.BuildWhereClause` | src/index.ts:37-104 | the loop that pushes clauses and arguments returns exactly the specified compilation (`CompileWhere`), including the first unsupported-operator error |
| `WhereClause.WhereShape` | src/index.ts:38-103 | no conditions compile to exactly `""` with no arguments; any other successful compilation starts with `" WHERE "` and has as many `?` as arguments |
| `WhereClause.WhereAlignment` | src/index.ts:45-103 | binding the arguments to the placeholders gives `" WHERE "` followed by the surviving conditions joined by `" AND "`, each with its own value(s) in its own placeholder(s), in order |
| `WhereClause.ConditionAlignment` | src/index.ts:46-92 | per operator: `eq`/`ne`/`lt`/`lte`/`gt`/`gte` give `field op ?` bound to the value unchanged; `contains`/`starts_with`/`ends_with` give `field LIKE ?` bound to `%v%`/`v%`/`%v`; `in` with a non-empty array gives one `?` per element, bound in order; a condition adds a clause exactly when it survives |
| `WhereClause.MissingOperatorMeansEq` | src/index.ts:46-53 | an absent operator compiles as `eq`: `field = ?` bound to the value |
| `WhereClause.DroppedInIsInvisible` | src/index.ts:86-103 | an `in` whose value is not a non-empty array adds neither text nor argument; the rest compiles as if it were absent, and a list made only of such conditions still yields a bare `" WHERE "` |
| `WhereClause.CollectAppend` | src/index.ts:45-100 | compiling a concatenation of condition lists gives the first error of the left part, else the first error of the right part, else both clause lists in order |
| `WhereClause.ConnectorIgnored` | src/index.ts:27-32 | condition lists that differ only in their `connector` compile identically; everything is joined with AND |
| `WhereClause.FailsIffUnsupported` | src/index.ts:49-95 | compilation fails if and only if some condition's operator is outside the table, and the failure is then an unsupported-operator error |
| `WhereClause.FirstUnsupportedReported` | src/index.ts:93-95 | the error names the operator string of the first condition outside the table, with the message "Unsupported operator: <op>" |
| `Adapter.FilterRecord` | src/index.ts:146-155 | the loop over the record's entries keeps exactly the entries the specification `Kept` keeps, in their original order |
| `Adapter.KeptMembers` | src/index.ts:147-155 | an entry is inserted if and only if it is in the data, its value is not `undefined`, and its key is not `id` unless `forceAllowId` is set |
| `Adapter.CreateIdColumn` | src/index.ts:150-158 | without `forceAllowId` no `id` column is inserted, whatever its value; with it, a defined `id` is inserted, with its value at the same position as its column |
| `Adapter.BuildCreate` | src/index.ts:143-162 | `create` up to `client.execute` produces the specified INSERT statement |
| `Adapter.CreateAlignment` | src/index.ts:157-170 | the arguments are the kept values in order; columns, `?` list and arguments have equal length, and the i-th placeholder holds the i-th kept value; RETURNING lists the selected columns, or `*` when none are selected |
| `Adapter.CreateOutcome` | src/index.ts:166-179 | `create` succeeds if and only if the client returns at least one row, and then yields the first one; otherwise it fails with "Create" and the client's message or "Failed to create record in <model>" |
| `Adapter.UpdateManyAlignment` | src/index.ts:207-216 | `UPDATE model SET k1 = ?, …` followed by the where clause; the update values come first, each in its own SET placeholder, then the where arguments |
| `Adapter.UpdateAlignment` | src/index.ts:182-191 | `update` executes the `updateMany` statement with `" RETURNING *"` appended and the same arguments, so its placeholders line up as well |
| `Adapter.UpdateOutcomes` | src/index.ts:195-229 | `update` yields the first returned row or `None`; `updateMany` yields `rowsAffected`; a client error is wrapped with the operation's name |
| `Adapter.DeleteAlignment` | src/index.ts:232-252 | `DELETE FROM model` followed by the where clause, binding exactly the where arguments |
| `Adapter.DeleteOutcomes` | src/index.ts:239-265 | `delete` succeeds exactly when the client resolves, however many rows it removed; `deleteMany` yields `rowsAffected`; a client error is wrapped with "Delete" or "DeleteMany" and the client's message |
| `Adapter.FindOneAlignment` | src/index.ts:268-280 | `SELECT <select or *> FROM model <where> LIMIT 1`, binding exactly the where arguments |
| `Adapter.EmptySelectDiffers` | src/index.ts:161-272 | an empty `select` gives `findOne` an empty column list (`SELECT  FROM …`), while `create` returns `*` |
| `Adapter.FindOutcomes` | src/index.ts:276-323 | `findOne` yields the first row or `None`; `findMany` yields every row in order; client errors are wrapped with the operation's name |
| `Adapter.BuildFindMany` | src/index.ts:288-310 | growing the SQL with `+=` and the arguments with `push` produces the specified `findMany` statement |
| `Adapter.FindManyPlain` | src/index.ts:289-310 | with no conditions, no sort and no truthy limit or offset, the statement is exactly `SELECT * FROM <model>` with no arguments |
| `Adapter.ZeroPagingSkipped` | src/index.ts:302-310 | a `limit` or `offset` of 0 gives the same statement as none |
| `Adapter.SortDirection` | src/index.ts:298-300 | ORDER BY ends in `ASC` if and only if the direction is exactly `"asc"`, and in `DESC` otherwise |
| `Adapter.FindManyAlignment` | src/index.ts:289-318 | the where arguments come first, then the limit, then the offset, each in its own placeholder; a falsy limit or offset adds neither text nor argument |
| `Adapter.BuildCount` | src/index.ts:326-334 | the step-by-step assembly produces the specified COUNT statement |
| `Adapter.CountAlignment` | src/index.ts:327-342 | `SELECT COUNT(*) as count FROM model <where>`, binding exactly the where arguments |
| `Adapter.CountFiltersLikeFindMany` | src/index.ts:289-334 | `count` and a plain `findMany` with the same conditions both succeed or both fail, and use the same WHERE text and arguments |
| `Adapter.CountOutcome` | src/index.ts:338-352 | `count` yields the `count` column of the first row if and only if there is a row and it has that column; a missing row or column fails with "Count" and "Count query returned invalid result", and a client error fails with "Count" and the client's message |
| `Adapter.WhereErrorsEscape` | src/index.ts:188-331 | an unsupported operator makes every operation that takes a `where` (all but `create`) fail with that same unwrapped error, whatever the client would do |

## Left out

- Client construction and its configuration (`url`, `authToken`, `syncUrl`, `syncInterval`, `encryptionKey`) call into the `@libsql/client` library and have no logic of their own.
- `createAdapter`, the `usePlural`, `debugLogs` and other flags, the `debugLog` calls and the `client` property attached for tests are host-framework plumbing or logging. None of them affects the SQL.
- `async`/`await` and the `client.execute` round trip are replaced by the `execute` function parameter. What SQLite does with a statement is not modelled: filtering, RETURNING, row counts, or a count of 0 on an empty table.
- Adapter.CountOutcome: returns the raw `count` value; the `Number(...)` conversion is JavaScript's own numeric coercion and is not modelled.
- Numbers are unbounded integers. Floating point, `NaN`, `bigint`, dates and binary values are not modelled, and neither is their printing in LIKE patterns.
- Records are given as entry lists in `Object.entries` order. JavaScript's rule that integer-like keys come first is not modelled, and the entry-list type does not itself rule out the duplicate keys an object cannot have; the lemmas hold either way.
- A thrown value is modelled as its message, which stands for `error instanceof Error ? error.message : String(error)`.
- An absent `where` is modelled as the empty list. `buildWhereClause` treats both the same way, and `findMany` and `count` skip it for both.
- `select` is an optional array of column names. A truthy non-array value is not modelled.
- The alignment lemmas assume that table, column and field names contain no `?`. The source puts those names into the SQL unescaped.
- The compiled `dist/` copy, the type declarations, the test suites and the configuration examples repeat or exercise the source and are not part of this model.
