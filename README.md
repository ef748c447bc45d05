# Users repository: the findAndSort query builder and the driver callbacks

This project models the logic of `UserRepository` (`src/modules/users/users.repository.ts`),
a data-access layer over a MySQL `users` table. Almost every method hands a
fixed, parameterised statement to `connection.query`; the two pieces with
behaviour of their own are modelled here.

- **The dynamic SELECT of `findAndSort`** (module `UsersQuery`, file
  `query_builder.dfy`). Starting from `SELECT * FROM users`, the method appends
  ` WHERE k = 'v'` for the first filter entry and ` AND k = 'v'` for each later
  one, then ` ORDER BY column direction`, ` LIMIT n` and ` OFFSET n`. Each
  optional part is guarded by a JavaScript truthiness test: a missing or empty
  string, a missing or zero number, and a missing filter add nothing (an empty
  filter object is truthy but has no entries, so it adds nothing either). Values
  are pasted between single quotes with no escaping, exactly as the code does.
  `BuildFindAndSortQuery` is the imperative builder (a mutable `query`, a loop
  for the `reduce` over the filter entries in `ReduceEntries`, then three guarded
  appends); it is proved equal to the specification function `QueryText`.
- **Reading a query back** (module `UsersQueryParse`, file `query_parser.dfy`).
  `ParseQuery` is an independent inverse of the builder. When no column name,
  sort column or direction contains a space and no filter value contains a
  single quote, it recovers exactly the clauses the parameters ask for
  (`Requested`: the parameters after JavaScript truthiness). So the query holds
  the base, then the conditions in entry order, then ORDER BY, LIMIT and OFFSET,
  and nothing else. `QuotedValueInjectsCondition` shows what happens without
  that condition: a value containing a quote closes its literal early, and two
  different filters build the same statement.
- **Integers in the query text** (module `Decimal`, file `decimal.dfy`): `${n}`
  for an integral number, with its parse-back.
- **The driver callbacks** (module `UsersResults`, file `result_dispatch.dfy`).
  A driver error rejects the promise with that error. `findByEmail` and
  `findById` resolve to `null` (`None`) when there is no first row and
  otherwise to the mapped first row. `findAndSort` maps every row in order.
  `update` and `create` adopt the outcome of their read-back. `delete` resolves
  with nothing. The row mapper `userDocToUser` is a function parameter:
  `src/mappers/user.mapper` is not part of this model.

`wrappers.dfy` holds `Option`; `text.dfy` holds the split-at-a-character helper
the parser uses.

The builder takes the filter as the sequence of `[key, value]` pairs that
`Object.entries` yields, in that order. `limit` and `skip` are modelled as
optional integers rather than naturals. JavaScript treats a negative number as
truthy, so a negative limit is written into the query with its minus sign.
The OFFSET guard does not look at the limit: a skip without a limit yields a
query ending in a bare ` OFFSET n`, which MySQL rejects because it accepts
OFFSET only after a LIMIT, so such a call always ends in a driver error.

## Model

| member | source | states |
|---|---|---|
| `UsersQuery.ReduceEntries` | src/modules/users/users.repository.ts:97-104 | the reduce leaves the starting text followed by one condition per entry: ` WHERE ` before entry 0 and ` AND ` before each later entry, each written `k = 'v'`, in entry order |
| `UsersQuery.BuildFindAndSortQuery` | src/modules/users/users.repository.ts:95-114 | the query the imperative builder produces is `QueryText`: base, filter conditions, ORDER BY, LIMIT, OFFSET, each present only when its truthiness guard holds |
| `UsersQuery.QueryStartsWithBase` | src/modules/users/users.repository.ts:95 | every built query begins with exactly `SELECT * FROM users` |
| `UsersQuery.FilterTextShape` | src/modules/users/users.repository.ts:96-105 | a missing filter or one with no entries adds no text at all; with n ≥ 1 entries the filter text is ` WHERE ` + the first entry, then ` AND ` + each of the other n−1 entries in order |
| `UsersQuery.WhereTextShape` | src/modules/users/users.repository.ts:97-104 | the left fold of the reduce equals the reference rendering: one WHERE before the first entry, followed by an AND chain over the rest |
| `UsersQuery.FalsyFieldsAreAbsent` | src/modules/users/users.repository.ts:96-114 | an empty sort column, an empty direction, a zero limit, a zero skip and an empty filter give the same query as leaving that field out |
| `UsersQuery.OrderNeedsBothFields` | src/modules/users/users.repository.ts:106-108 | when either the sort column or the direction is missing or empty, there is no ORDER BY text between the conditions and LIMIT |
| `UsersQuery.AdminsByAgeQuery` | src/modules/users/users.repository.ts:95-114 | filter `user_role = admin`, sort `age ASC`, limit 2, skip 1 gives `SELECT * FROM users WHERE user_role = 'admin' ORDER BY age ASC LIMIT 2 OFFSET 1` |
| `UsersQuery.OffsetWithoutLimitQuery` | src/modules/users/users.repository.ts:109-114 | a skip of 1 with no limit gives `SELECT * FROM users OFFSET 1`: OFFSET is written even without a LIMIT before it |
| `Decimal.IntToString` | src/modules/users/users.repository.ts:109-114 | an interpolated integer is a run of digits, preceded by a minus sign exactly when it is negative (then at least one digit follows the sign) |
| `Decimal.NatToString` | src/modules/users/users.repository.ts:109-114 | the numeral of a non-negative integer is non-empty and all digits, is one digit long exactly when the number is below 10, and starts with `0` exactly when the number is 0 (so 0 is written `0` and nothing else has a leading zero) |
| `Decimal.IntToStringRoundTrip` | src/modules/users/users.repository.ts:109-114 | reading back the numeral written for LIMIT or OFFSET gives the same integer |
| `Decimal.IntToStringInjective` | src/modules/users/users.repository.ts:109-114 | two integers give the same numeral if and only if they are equal |
| `UsersQueryParse.ParseBuiltQuery` | src/modules/users/users.repository.ts:95-114 | for parameters with no space in column names, sort column or direction and no quote in values, the query parses back to exactly the requested clauses: all filter entries in order, ORDER BY iff both sort fields are truthy, LIMIT iff limit is non-zero, OFFSET iff skip is non-zero, and no other text |
| `UsersQueryParse.SameQueryIffSameRequest` | src/modules/users/users.repository.ts:95-114 | two such parameter bags build the same query if and only if they ask for the same clauses after truthiness |
| `UsersQueryParse.QueryTextDependsOnRequested` | src/modules/users/users.repository.ts:96-114 | any two parameter bags that ask for the same clauses after truthiness build the same query |
| `UsersQueryParse.ParseFilterText` | src/modules/users/users.repository.ts:96-105 | the conditions written for a filter (none when it is missing) are read back as its entries, in order, up to the end of the filter text |
| `UsersQueryParse.ParseOrderText` | src/modules/users/users.repository.ts:106-108 | the ORDER BY text parses back to the column and direction when both are truthy, and to no ordering otherwise |
| `UsersQueryParse.ParseNumberText` | src/modules/users/users.repository.ts:109-114 | a LIMIT or OFFSET clause parses back to its number when the number is non-zero; when it is missing or zero no clause is read |
| `UsersQueryParse.QuotedValueInjectsCondition` | src/modules/users/users.repository.ts:99-101 | the single filter `a = x' AND b = 'y` and the two filters `a = x`, `b = y` ask for different clauses but build the same query |
| `UsersResults.SettleLookup` | src/modules/users/users.repository.ts:10-31 | the `findByEmail`/`findById` callback rejects exactly on a driver error, with that error; otherwise it resolves to `null` exactly when there are no rows, and else to the mapped first row |
| `UsersResults.LookupIgnoresLaterRows` | src/modules/users/users.repository.ts:13-16 | rows after the first never change a lookup's outcome |
| `UsersResults.MapRows` | src/modules/users/users.repository.ts:120 | mapping the rows keeps their number and order: user i is the mapped row i |
| `UsersResults.MapRowsAppend` | src/modules/users/users.repository.ts:120 | mapping a concatenation of rows is the concatenation of the mapped parts |
| `UsersResults.SettleListing` | src/modules/users/users.repository.ts:116-121 | the `findAndSort` callback rejects exactly on a driver error, with that error, and otherwise resolves to all rows mapped in order |
| `UsersResults.LookupIsHeadOfListing` | src/modules/users/users.repository.ts:25-31 | given the same response, a lookup fails exactly when the listing fails, and otherwise resolves to the listing's first user, or `null` when the listing is empty |
| `UsersResults.SettleWrite` | src/modules/users/users.repository.ts:51-55 | the `update` (and, identically, `create`, lines 82-86) callback rejects with the driver error and otherwise takes on the outcome of the read-back by email |
| `UsersResults.SettleDelete` | src/modules/users/users.repository.ts:65-69 | the `delete` callback rejects exactly on a driver error, with that error, and otherwise resolves |
| `UsersResults.WriteMayResolveNull` | src/modules/users/users.repository.ts:37-55 | a successful write whose read-back finds no row resolves to `null`, although `update` and `create` are declared to return a user |

## Left out

- The `connection.query` calls, the promise plumbing and `console.log`: I/O with no logic of its own. The driver's answer is a parameter of each callback model.
- The static statements of `findByEmail`, `findById`, `update`, `delete` and `create` (their `?` placeholders and bound parameter lists): constant text passed to the driver, which does the binding.
- What the SQL does to the table: which rows a WHERE, ORDER BY, LIMIT or OFFSET selects, and the effect of UPDATE, DELETE and INSERT. The external database decides this.
- The write-then-read-back of `update` and `create` as two round trips, and the race between them: concurrency and I/O. The read-back's outcome is a parameter of `SettleWrite`.
- `userDocToUser`: its module is not part of this model; the callbacks take it as a function parameter.
- `Object.entries` key order: JavaScript lists integer-like keys first, in ascending order, and then the other keys in insertion order. The model takes the entry sequence as `Object.entries` returns it. A filter object cannot repeat a key, but the model does not need that.
- Filter values that are not strings, and `limit`/`skip` values that are strings, fractions or NaN: `src/modules/users/interfaces/parameters` is not part of this model, so the model takes string filter values and integral numbers.
- Decimal.IntToString: writes every integer in plain digits. JavaScript switches to exponent notation from 10^21 on and loses precision beyond 2^53; the model does not follow it there.
- `results[0] === undefined` when the first array element is itself `undefined`: a driver never returns such a row array, so an empty row sequence stands for the only case that occurs.
