# Change-event replay, modelled in Dafny

This project models a small logical-replication consumer. The program reads
change events one per line, as a logical-decoding stream reports them. It
keeps one transaction in progress in a handful of local variables, and on
every commit writes the buffered rows to a database as a single
parameterised multi-row `INSERT`.

The events are:

- `B` (begin) clears the buffer.
- `I` (insert) turns the event's columns into one row of typed values.
  - Each column goes through a type switch on its upstream type name.
  - The row is appended, and the event's schema, table and comma-joined column names are remembered.
- `C` (commit) builds `insert into <schema.table> (<columns>) values ( $1, … ) , ( … )`.
  - It hands the statement and the row-major parameter list to the database once.
  - It then counts the transaction and clears the buffer.
- `K` (keepalive), and any action the dispatch has no case for, do nothing.
- A line that does not decode, a column whose value has the wrong shape or does not parse, and a statement the database refuses all end the run.

Modules, one per file:

- `events.dfy`, module `Events`: the decoded event structures, namely `Stmt`, `Message` and `Column`. An input `Line` is either a decoded `Stmt` or a line that failed to decode.
- `text.dfy`, module `Text`: prefix test, `strings.Join`, and the loop form of joining. It also holds the decimal rendering behind the `$%d` placeholders, with a read-back round trip.
- `coerce.dfy`, module `Coercion`:
  - `Classify` and `Coerce` are the per-column type switch as pure functions.
  - `RowOf` specifies the column loop.
  - `BuildRow` is that loop as a method proved equal to `RowOf`.
- `statement.dfy`, module `Statement`:
  - `QueryText` and `Flatten` specify the commit-time statement and its parameters.
  - `Build` (outer loop) and `AppendPlaceholders` (inner loop) are the nested builder loops as methods, proved equal to those functions.
- `replay.dfy`, module `Replay`:
  - `Next` gives the effect of one line; `Replay` folds it over the input.
  - Lemmas cover reset, append-only buffering, commit and no-ops.
  - The class `Replayer` keeps the loop's locals as fields, with a ghost log of database calls. Its `Step` and `Run` methods are proved equal to `Next` and `Replay`.

Code outside the model is passed in as the functions of an `Env` value:

- `scan` stands for the text scanners of the type library: does this text parse as a timestamp, JSON, a date, an address, and so on.
- `sanitize` stands for identifier quoting of `schema.table`.
- `refuses` says which statements the database rejects.

## Behaviour as written

The model follows the code in these places. A stricter transaction design would differ in each of them:

- An insert overwrites the buffered schema, table and column list. It is not checked against earlier inserts of the same transaction (`InsertsAppend`).
- A commit with nothing buffered still sends a statement: the bare header, with no tuples and no parameters (`EmptyCommitExecutes`).
- A column whose type name is not recognised keeps its name in the column list but contributes no value. Every later value of that row then sits under the wrong column name (`UnknownTagShiftsValues`).
- Any failure ends the whole run; nothing is skipped or retried.
  - When a column fails, the schema and table have already been overwritten (they are assigned before the column loop), but no row is appended.
  - When the database refuses a statement, the buffer is left as it was.

## Model

| member | source | states |
|---|---|---|
| Replay.InsertWithoutOptionalFields | parse.go:12-14 | a message whose optional fields are missing decodes them as empty (`Events.MessageOf`); an insert whose message has no schema, table or columns appends an empty row and sets schema, table and column list to "" |
| Replay.MetadataIgnored | parse.go:17-23 | two events with the same top-level action and the same message schema, table and columns have the same effect, whatever their xid, lsn, timestamp and nested action and xid |
| Coercion.Classify | main.go:78-137 | a type name is handled exactly when it is one of the nine exact names or starts with `character varying`; the varchar rule is chosen exactly for names with that prefix |
| Coercion.Coerce | main.go:79-136 | an unrecognised type drops the value; a recognised type whose wire value has the wrong shape fails; a text type whose text does not scan fails; otherwise the typed value carries the wire value under the column's rule; failures name the column and its type |
| Coercion.RecognisedColumns | main.go:78-137 | the columns that yield a value are at most all the columns, and all of them exactly when every type name is recognised |
| Coercion.RowSucceedsIff | main.go:75-139 | the column loop completes exactly when no column fails; then it has one name per column and one value per recognised column |
| Coercion.RowContents | main.go:75-139 | a completed row names every column in order, and its k-th value is the coerced value of the k-th recognised column |
| Coercion.RowFailsAtFirstBadColumn | main.go:75-137 | a failed row reports the first column whose coercion fails |
| Coercion.BuildRow | main.go:73-138 | the per-column loop computes exactly `RowOf` |
| Text.JoinPrefixComplete | main.go:150-164 | writing each part followed by the separator unless it is the last gives exactly `strings.Join`: no trailing separator |
| Text.JoinPrefixIsJoin | main.go:152-158 | after j parts, the loop has written the join of those parts plus one pending separator if more follow |
| Text.DecimalString | main.go:154 | the `%d` rendering is a non-empty run of digits with no leading zero |
| Text.DecimalRoundTrip | main.go:154 | reading the rendered digits back gives the number |
| Text.DecimalInjective | main.go:154 | distinct numbers render as distinct placeholders |
| Statement.AppendPlaceholders | main.go:152-159 | the inner loop appends the row's placeholders, numbered on from the counter and separated by ", ", advances the counter by the row width and appends the row's values to the parameters |
| Statement.Build | main.go:144-164 | the builder's text is the header followed by one tuple per row, separated by ","; its parameters are the rows concatenated in order |
| Statement.FlattenAppend | main.go:149-153 | the parameters of two batches of rows are the first batch's followed by the second's |
| Statement.OffsetsAreConsecutive | main.go:148-155 | placeholder numbering starts at 1, each row advances it by its width, and it ends at the parameter count |
| Statement.PlaceholderBindsParameter | main.go:148-155 | the placeholder in slot j of tuple i is `$k` with k the position of value j of row i in the parameter list |
| Statement.UniformBatch | main.go:150-164 | n rows of width m give n tuples and n * m parameters |
| Replay.Next | main.go:60-174 | an undecodable line aborts with no effect; B clears the buffer but keeps the transaction count; K and unknown actions change nothing; only C calls the database, exactly once |
| Replay.InsertStep | main.go:70-141 | I sets schema and table; it appends one row of one value per recognised column and sets the column list to the joined names, leaving earlier rows untouched, exactly when no column fails, and otherwise aborts with rows and column list unchanged |
| Replay.CleanInsertStep | main.go:71-141 | an insert whose columns all coerce appends exactly its row, takes its schema, table and joined names, and calls nothing |
| Replay.CommitStep | main.go:142-171 | C sends the statement built from the buffer with the flattened rows as parameters; if accepted, the buffer is cleared and the count goes up by one; if refused, the run aborts with the buffer intact |
| Replay.ReplayAppend | main.go:60-66 | processing two stretches of input is processing the first and then the second from where it left off, unless the first aborted |
| Replay.KeepaliveTransparent | main.go:172-173 | removing a K line, or a line with an unhandled action, from anywhere in the input changes nothing |
| Replay.BeginForgets | main.go:51-69 | after a B line, what follows depends only on the transaction count and not on what was buffered |
| Replay.InsertsAppend | main.go:70-141 | a run of clean inserts sends nothing, appends their rows in arrival order, and leaves the table and column list of the last insert |
| Replay.TransactionFlush | main.go:67-171 | B, clean inserts, C sends exactly one statement, for the last insert's table and columns with all inserted rows as parameters; accepted, it leaves a cleared buffer and the count one higher |
| Replay.EmptyCommitExecutes | main.go:142-171 | B then C sends `insert into <target> () values ` with no parameters |
| Replay.ExampleTransaction | main.go:67-171 | two (id, name) inserts give the text `… (id,name) values  ( $1, $2 ) , ( $3, $4 ) ` with parameters 1, "a", 2, "b" |
| Replay.UnknownTagShiftsValues | main.go:75-164 | columns (id integer, tags text[], name text) give the column list `id,tags,name` but only two placeholders, binding 1 and "a" |
| Replay.ReplayStep | main.go:60-66 | one pass of the loop keeps the run's effect: the line either ends the run or the rest resumes from the next line |
| Replay.Replayer.constructor | main.go:44-50 | the loop starts with an empty buffer, a zero count and no database calls |
| Replay.Replayer.Refresh | main.go:51-58 | `refresh` clears schema, table, rows and column list and keeps the count and the call log |
| Replay.Replayer.Exec | main.go:165-168 | the call is logged, and succeeds exactly when the database accepts it |
| Replay.Replayer.Step | main.go:67-174 | one dispatch leaves the fields equal to `Next`'s new state, logs exactly `Next`'s calls and returns its outcome |
| Replay.Replayer.Advance | main.go:60-66 | one loop pass keeps the run's effect |
| Replay.Replayer.Run | main.go:60-175 | the loop leaves the fields equal to `Replay`'s final state, logs exactly `Replay`'s calls and returns its outcome |

## Left out

- Flag parsing, logger set-up and every log call (main.go:19-30, 64, 143, 170): configuration and output only.
- The connection pool and the `SELECT 1` probe (`getPgxPool`, `testConn`): network I/O before the loop.
- Opening the file and splitting it into lines: the model takes the lines as a sequence.
- JSON decoding itself: a line either decodes to a `Stmt` or is `Malformed`, and the model does not say which texts decode. A decode failure ends the run, as the process exit does.
- The text scanners of the type library and identifier quoting are functions of `Env`, so nothing is assumed about what they accept or produce. The database's answer is the `refuses` predicate of `Env`, and its effect on stored data is not modelled.
- Coercion.Coerce: does not model the float64 wire number or the float64-to-int32 conversion of `integer` columns. Numbers are unbounded integers, so a value outside the 32-bit range or with a fraction is kept as it is.
- JSON arrays and objects as column values: the wire value is a number, string, boolean or null. Any other shape fails every type assertion, just as `Null` does.
- The `column_name` map and the outer `row` slice: written but never read.
- The rows-affected count the database returns: only success or failure is modelled.
- Panics are modelled as an `Abort` outcome. The process-level difference between exiting and panicking is not modelled.
