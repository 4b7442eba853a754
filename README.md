# Blueprint-Golang: record mapper and migration tool, modelled in Dafny

This project models two parts of the Blueprint-Golang service template.

- **The reflection-driven record mapper, `DBClient`.** It runs SQL against a database handle and moves driver rows into Go structs.
  - `getStructFields` turns struct tags into a column list.
  - `copyValuesToStruct` coerces each cell by the kind of the field it lands in.
  - `extractForeignKey` recognises a belongs-to relation field.
  - `handleNestedRelations` fills relation fields with a nested `Find`.
  - `Find`, `All`, `Create`, `Update` and `Delete` are built on the SQL-text helpers `stringJoin`, `joinColumns`, `generatePlaceholders` and `generateUpdateSetQuery`.
- **The name and type rules of the migration tool.**
  - `getColumns` and `getRelations` classify introspection rows.
  - The column lines of `templateModelFile` turn SQL types, keys and foreign keys into Go field declarations.
  - `generateModels` filters out the tool's own tables.
  - `templateMigration` names a new migration.
  - `extractTableName` reads a table name back out of a migration function name with the pattern `Up\d+([A-Za-z]+)`.

The mapper exists twice with the same logic: `internal/storage/query.go` and the package `internal/storage/query/`. The same model stands for both copies, and the table below cites whichever copy shows a rule most directly. The lines correspond as follows.

| `internal/storage/query.go` | `internal/storage/query/` |
|---|---|
| 19-51 | `utils.go` 27-59 |
| 53-70 | `query.go` 17-34 |
| 72-84 | `handler.go` 5-17 |
| 86-102 | `utils.go` 9-25 |
| 104-167 | `query.go` 36-99 |
| 169-192 | `structs.go` 10-33 |
| 194-257 | `structs.go` 35-98 |

Likewise, `cmd/migration/src/generator.go` repeats `templateModelFile`, `templateMigration` and `extractTableName` of `cmd/migration/migrate.go`.

How the model is laid out:

- `Schema` holds struct types as data. A `Field` is a descriptor: Go name, `db` tag, `gorm` tag, kind and type name. A nested struct's kind carries its own descriptors, so a struct type is a finite tree. That is why `Find` and `handleNestedRelations`, which call each other, terminate: each call goes one level down.
- A struct the mapper fills in place is a `Record`: a class with an array of field values.
- The database is a `Driver` whose answers are given: the row or error of `QueryRow`, the rows of `Query`, and the result of `Exec`. Every statement about `Find` and `All` reads "given that the driver answered so".
- Each imperative Go function is a Dafny method proved against a specification function:
  - `CopyValuesToStruct` against `CopyRow`;
  - `HandleNestedRelations` against `Resolve`, an in-order overlay of `Related`;
  - `All` against `AllRows`;
  - `GetStructFields` against `Columns`;
  - `TemplateModelFile` against `ModelFile`.

  Lemmas then state the source's promises about those functions.
- `Strs` and `Strconv` model the standard-library functions the code calls: `strings.Split`, `Contains`, `HasPrefix`, `TrimPrefix`, `ToLower`, and `strconv.Atoi` and `Itoa`.

## Model

| member | source | states |
|---|---|---|
| `SqlText.StringJoin` | internal/storage/query.go:39-51 | The accumulation loop returns exactly `Join(items, separator)`, and "" for an empty list. |
| `Strs.JoinTiling` | internal/storage/query/utils.go:47-59 | The joined string is the items in order, each at its offset, with exactly one separator between neighbours and nothing else. |
| `Strs.JoinContainsItem` | internal/storage/query/utils.go:47-59 | Every item of the list occurs in the joined string. |
| `SqlText.JoinColumns` | internal/storage/query.go:19-21 | The output begins and ends with a backtick, even for no columns. |
| `SqlText.JoinColumnsContains` | internal/storage/query/utils.go:27-29 | Every column name occurs in the output. |
| `SqlText.JoinColumnsQuoted` | internal/storage/query.go:19-21 | For a non-empty list, the output is each name in backticks joined by ", "; the empty list gives "``", not "". |
| `SqlText.GeneratePlaceholders` | internal/storage/query.go:23-29 | Filling an array of `count` marks and joining it yields `Placeholders(count)`: n marks joined by ", " in parentheses. |
| `SqlText.PlaceholdersCounts` | internal/storage/query/utils.go:31-37 | `generatePlaceholders(n)` holds exactly n "?" and n - 1 commas (none for n = 0). It is 3n characters long, and "()" for n = 0. |
| `SqlText.MarksJoinCounts` | internal/storage/query/utils.go:31-36 | For n > 0, the n marks joined by ", " hold n "?", n - 1 commas and 3n - 2 characters. |
| `SqlText.GenerateUpdateSetQuery` | internal/storage/query.go:31-37 | The append loop builds "`c` = ?" per column in column order and joins them with ", ". |
| `SqlText.UpdateSetCounts` | internal/storage/query/utils.go:39-45 | The SET list is "" for no columns and holds exactly one "?" per column, when no column name holds a "?". |
| `SqlText.AssignmentMarks` | internal/storage/query/utils.go:41-42 | One assignment holds exactly one "?". |
| `SqlText.ByIdMarks` | internal/storage/query.go:53-55 | The statements of `Find` and of `Delete` (line 161) hold exactly one placeholder, which the id fills. |
| `SqlText.InsertMarks` | internal/storage/query.go:141-143 | The INSERT statement holds exactly one placeholder per column. |
| `SqlText.UpdateMarks` | internal/storage/query.go:150-153 | The UPDATE statement holds one placeholder per column plus one for the id, matching the values with the id appended. |
| `Schema.ZeroVals` | internal/storage/query/handler.go:11 | A freshly allocated struct holds, in each field, a value of that field's kind. |
| `Schema.Columns` | internal/storage/query/structs.go:10-33 | At most one column per field, and none of them is "". |
| `Schema.ColumnsMembers` | internal/storage/query/structs.go:13-30 | Every field with a resolvable name has it listed, and every listed name is some field's name. |
| `Schema.GetStructFields` | internal/storage/query.go:169-192 | The one-pass loop, with its early `break` on the first `column:` part, returns exactly `Columns(fields)`. |
| `Schema.ColumnsPosition` | internal/storage/query/structs.go:13-30 | Declaration order: a named field contributes its name right after the columns of the fields before it, and a field without a name contributes nothing. |
| `Schema.ColumnsAppend` | internal/storage/query/structs.go:13-31 | The columns of two field lists laid end to end are the columns of the first followed by those of the second. |
| `Schema.GormColumnIsFirstColumnPart` | internal/storage/query/structs.go:15-25 | Without a `db` tag, the name is the first `;`-part of the gorm tag that starts with `column:`, prefix stripped, whatever follows it. |
| `Schema.ColumnPartFirst` | internal/storage/query/structs.go:20-24 | The part search returns the first part with the `column:` prefix, stripped. |
| `Schema.GormColumnAbsent` | internal/storage/query/structs.go:16-27 | Without a `db` tag and with no `column:` part, the field has no name and is skipped. |
| `Coerce.CoerceString` | internal/storage/query.go:211-221 | A string field gets the text of a byte cell, a string cell itself, and "" for nil. A native integer is rendered as decimal text that `Atoi` reads back as the same integer. |
| `Coerce.CoerceInt` | internal/storage/query.go:223-236 | An int or int64 field stores a native int or int64 as is, and bytes as `Atoi`'s value when `Atoi` accepts them. A native float64 stores the float operations' truncation of it. Only those cells can change the field. |
| `Coerce.CoerceFloat` | internal/storage/query.go:237-245 | A float64 field stores a native float64 cell as is. It changes only for such a cell or for bytes that `ParseFloat` accepts, and accepted bytes store the parsed value. Rejected bytes leave it unchanged. |
| `Coerce.FirstMatch` | internal/storage/query/structs.go:39-43 | The index found is the first declared field whose `db` tag equals the column. It is absent exactly when no field has that tag. |
| `Coerce.CopyCell` | internal/storage/query.go:207-248 | A coerced value always has the kind of the field it is written to. |
| `Coerce.CopyRow` | internal/storage/query.go:198-253 | Copying a row keeps every field at a value of its own kind. |
| `Coerce.Record.constructor` | internal/storage/query/handler.go:11 | `reflect.New`: a new struct with the given descriptors, every field at its zero value. |
| `Coerce.Record.CopyValuesToStruct` | internal/storage/query.go:194-257 | The nested search loops, with `break` after the first hit, leave the fields exactly at `CopyRow` of the old values. |
| `Coerce.CopyUntouched` | internal/storage/query.go:198-204 | A field that is no column's first match keeps its prior value. |
| `Coerce.CopyKeepsUnmatched` | internal/storage/query/structs.go:39-45 | A field keeps its prior value when its `db` tag equals no listed column, or when an earlier field has the same `db` tag. |
| `Coerce.GormOnlyFieldNeverWritten` | internal/storage/query/structs.go:42-43 | A field named only by `gorm:"column:..."` is listed by `getStructFields` but never written by `copyValuesToStruct` with that list. |
| `Coerce.CopyWritesFirstMatch` | internal/storage/query.go:196-253 | When column i is the last column whose first match is field j, field j ends as cell i coerced by its kind from the value the earlier columns left. Repeated column names are allowed: the last such cell wins. |
| `Coerce.DuplicateColumnsLastWins` | internal/storage/query/structs.go:39-45 | Two fields tagged `db:"x"` and a row with two `x` cells 1 and 2: the first field ends holding 2, and the second field is never written. |
| `Coerce.CopyIntoNested` | internal/storage/query/structs.go:87-89 | Intended behaviour: a nested struct field matched by column `col` is filled by copying the one cell into the nested field tagged `col`. It is unchanged when no nested field has that tag. |
| `Coerce.IntFromRenderedBytes` | internal/storage/query.go:223-236 | The bytes of any 64-bit integer's decimal text coerce to that integer, whatever the field held. |
| `Coerce.StringThenIntRoundTrip` | internal/storage/query/structs.go:52-77 | An int or int64 cell rendered into a string field by `%v` coerces back to the same integer in an int field. |
| `Coerce.NestedCopyAsWritten` | internal/storage/query/structs.go:87-89 | As written, the nested copy fails its type assertion (a panic) exactly when some nested field carries the column's `db` tag. Otherwise nothing is written. |
| `Coerce.NestedCopyPanics` | internal/storage/query.go:246-248 | A concrete struct on which the written code panics where the intended copy writes "alice". |
| `Relations.FieldByName` | internal/storage/query/utils.go:16 | The index found is the first field with that Go name. It is absent exactly when no field has the name. |
| `Relations.KeyValue` | internal/storage/query/utils.go:13-21 | No key is found exactly when no `;`-part both starts with `foreignKey:` and names a field of kind `int`. |
| `Relations.ForeignKey` | internal/storage/query/utils.go:9-25 | A found relation's table is the lower-cased type name plus "s". A tag without `foreignKey:` never yields one. |
| `Relations.ExtractForeignKey` | internal/storage/query.go:86-102 | The search loop with early return reports ok exactly when `ForeignKey` finds a relation, and then its table and key. Otherwise it reports ("", 0, false). |
| `Relations.KeyValueFirst` | internal/storage/query/utils.go:13-21 | The key comes from the first qualifying part; earlier parts are skipped and later ones not consulted. |
| `Relations.ForeignKeyFirstPart` | internal/storage/query/utils.go:11-19 | The relation is exactly the first qualifying part's: table `lower(TypeName)+"s"`, id the current value of the named field. The `Contains` guard never hides such a part. |
| `Relations.Int64KeyIgnored` | internal/storage/query/utils.go:16-17 | A `foreignKey:` part naming an `int64` field never qualifies. A tag whose other parts do not qualify either, such as `foreignKey:X;references:ID`, yields no relation. |
| `Relations.ForeignKeyReadsIntFields` | internal/storage/query.go:93-96 | Whether a relation is found, and its key, depend only on the struct's `int` fields. |
| `Client.Scan` | internal/storage/query.go:63-65 | `Scan` succeeds exactly on a row with one cell per destination, and then yields the row. A row error passes through unchanged. |
| `Client.FindResult` | internal/storage/query/query.go:17-34 | `Find` fails exactly when the struct's own row fails to scan, with that error; a failed nested lookup never surfaces. On success the fields stay well typed. |
| `Client.Resolve` | internal/storage/query.go:72-84 | Resolving relations keeps every field at a value of its own kind. |
| `Client.Related` | internal/storage/query/handler.go:9-14 | A related record exists only for a struct field for which `extractForeignKey` reports ok. It is of that field's type. |
| `Client.Item` | internal/storage/query.go:122-134 | One element of `All`: a zero struct filled from its row, relations resolved, well typed. |
| `Client.Settle` | internal/storage/query.go:79-81 | Field i is set to the related record when the lookup succeeded, kept otherwise; every other field is unchanged. |
| `Client.OverlayKeeps` | internal/storage/query/handler.go:8-16 | Fields not yet visited by the loop, or never filled, keep their old values. |
| `Client.OverlaySettled` | internal/storage/query/handler.go:8-16 | A field, once visited, is not touched by later iterations. |
| `Client.RelatedReadsIntFields` | internal/storage/query.go:77 | The lookup for a field depends only on the `int` fields, so earlier overwritten relation fields cannot change it. |
| `Client.ResolveField` | internal/storage/query/handler.go:8-16 | Field j is overwritten with the related record exactly when its lookup succeeds, and otherwise keeps its value. The lookup uses the keys as they were before the call. |
| `Client.FindResultField` | internal/storage/query/query.go:27-32 | After a successful `Find`, each field holds its copied value, except relation fields whose lookup succeeded, which hold the related record. |
| `Client.AllRows` | internal/storage/query/query.go:52-69 | The rows succeed exactly when every row has one cell per listed column. Then the slice has exactly one element per row; no rows give an empty slice. |
| `Client.AllRowsItems` | internal/storage/query/query.go:53-66 | Element k of a successful result is row k's `Item`: a zero struct filled from that row, with its relations resolved. |
| `Client.AllResult` | internal/storage/query.go:104-139 | A query error is returned first, then the not-a-slice-pointer error. A success means the query succeeded, the destination is a slice pointer, and the slice has exactly one element per returned row. |
| `Client.AllRowsFirstError` | internal/storage/query/query.go:60-62 | With a badly shaped row, `All` reports the scan error of the first such row. |
| `Client.AllRowsStopsAtError` | internal/storage/query.go:128-130 | Once a prefix of the rows fails to scan, the later rows do not matter. |
| `Client.CollectOk` | internal/storage/query.go:121-135 | The row loop fails exactly when some row fails to scan. |
| `Client.CollectItems` | internal/storage/query.go:121-135 | A successful row loop appends exactly one element per row, in row order. |
| `Client.DBClient.constructor` | internal/storage/query/query.go:13-15 | `NewDBClient` wraps the given database handle. |
| `Client.DBClient.Find` | internal/storage/query.go:53-70 | On success `dest` holds the copied row with its relations resolved, as `FindResult` gives it. On a scan error, `Find` returns that error with `dest` untouched. |
| `Client.DBClient.HandleNestedRelations` | internal/storage/query/handler.go:5-17 | The loop visits fields in order, replacing each by its related record when there is one, in the values as they stand. It returns no error. |
| `Client.DBClient.SetRelated` | internal/storage/query.go:77-81 | One iteration changes only field i, and only when the nested `Find` succeeded. |
| `Client.DBClient.FetchRelated` | internal/storage/query/handler.go:10-14 | `extractForeignKey`, then `Find` into a fresh zero struct of the field's type; the result is `Related`. |
| `Client.DBClient.All` | internal/storage/query.go:104-139 | Order of checks: query error first, then not-a-slice-pointer, then rows. On success the slice is set to `AllRows`; on any error it is untouched. |
| `Client.DBClient.ReadItem` | internal/storage/query.go:122-134 | The loop body after a successful `Scan`: a fresh struct, filled by `copyValuesToStruct` and then `handleNestedRelations`, ends as the row's `Item`. |
| `Client.DBClient.Create` | internal/storage/query.go:141-148 | Issues `InsertSql` with the caller's values. On an exec error it returns (0, err); otherwise it returns `LastInsertId()`. |
| `Client.DBClient.Update` | internal/storage/query/query.go:82-90 | Issues `UpdateSql` with the caller's values followed by the id. On an exec error it returns (0, err); otherwise it returns `RowsAffected()`. |
| `Client.DBClient.Delete` | internal/storage/query.go:160-167 | Issues `DeleteSql` with the id as sole argument. On an exec error it returns (0, err); otherwise it returns `RowsAffected()`. |
| `Naming.Title` | cmd/migration/migrate.go:207-208 | ASCII title-casing, with words started only by a space (see Left out). It keeps the length and the letters up to case. The character that starts a word is not lower-case, and every other letter is not upper-case. |
| `Naming.Pascal` | cmd/migration/migrate.go:257-258 | Title-casing the name with underscores read as spaces, then removing the spaces, leaves neither spaces nor underscores and never lengthens the name. |
| `Naming.StructName` | cmd/migration/migrate.go:207-213 | The struct name is the Pascal form of the table name, or that form without one trailing "s". |
| `Naming.Singular` | cmd/migration/src/generator.go:21-23 | A trailing "s" is removed, and only when present. |
| `Naming.SingularRoundTrip` | cmd/migration/migrate.go:211-213 | Adding an "s" and singularising gives the name back, and no more than one character is ever removed. |
| `Naming.PascalWord` | cmd/migration/src/generator.go:18-19 | A one-word lower-case name gets only its first letter capitalised. |
| `Naming.PascalWordLower` | cmd/migration/migrate.go:383-384 | The Pascal form of a lower-case word is all letters and lower-cases back to the word. |
| `Naming.PascalTwoWords` | cmd/migration/migrate.go:208-209 | `a_b` becomes the two words capitalised and run together: `user_roles` to `UserRoles`. |
| `Naming.StructNamePlural` | cmd/migration/src/generator.go:17-23 | A table `<w>s` gets struct name `w` capitalised: `users` to `User`, and also `status` to `Statu`. |
| `Naming.DigitRun` | cmd/migration/migrate.go:372 | The greedy `\d+` takes the whole run of digits at a position. |
| `Naming.LetterRun` | cmd/migration/migrate.go:372 | The greedy `[A-Za-z]+` takes the whole run of letters at a position. |
| `Naming.MatchAt` | cmd/migration/migrate.go:372-373 | A match at a position captures a non-empty run of letters. |
| `Naming.FindMatch` | cmd/migration/migrate.go:373 | The leftmost match, when there is one, captures a non-empty run of letters. |
| `Naming.ExtractTableName` | cmd/migration/migrate.go:371-378 | A match yields a non-empty all-letter name. |
| `Naming.FindMatchLeftmost` | cmd/migration/src/generator.go:157 | The reported match is the one at the leftmost matching position. |
| `Naming.FindMatchNone` | cmd/migration/src/generator.go:157-158 | No match is reported exactly when no position matches. |
| `Naming.ExtractTableNameSpec` | cmd/migration/src/generator.go:155-162 | The result is "" exactly when the pattern matches nowhere, and otherwise the leftmost match's letters, lower-cased. |
| `Naming.MatchAtUpDigitsLetters` | cmd/migration/migrate.go:372-375 | `Up`, digits and letters match at the start and capture the letters. |
| `Naming.ExtractTableNameOf` | cmd/migration/migrate.go:371-378 | `Up<digits><letters>` yields the letters lower-cased: `Up20250226160158Users` to `users`. |
| `Naming.ExtractTableNameDown` | cmd/migration/src/generator.go:155-162 | A name with no `Up<digits><letters>` anywhere, such as `DownUsers`, does not match and yields "". |
| `Naming.ExtractTableNameDownUp` | cmd/migration/src/generator.go:155-162 | The pattern is not anchored. A generated `Down` name, `Down` followed by `Up<digits><letters>`, matches at its `Up` and yields the letters lower-cased, the same as the `Up` name alone. |
| `Naming.ExtractSnakeTableName` | cmd/migration/src/drop.go:91-96 | Corrected read-back: no match yields "", as before. |
| `Naming.SnakePascalWord` | cmd/migration/src/generator.go:123-124 | The snake-case rendering inverts the Pascal-casing of a one-word table name. |
| `Naming.SnakePascalTwoWords` | cmd/migration/src/generator.go:123-124 | The snake-case rendering inverts the Pascal-casing of a two-word table name `a_b`. |
| `Migrate.ColumnGoType` | cmd/migration/migrate.go:73-80 | The Go type is one of `int`, `float64`, `bool` and `string`. It is `int` exactly when the SQL type contains "int". It is `float64` exactly when the type contains "float", "double" or "decimal" but not "int". It is `string` exactly when the type contains none of the five names tested. |
| `Migrate.ColumnTag` | cmd/migration/migrate.go:82-87 | The tag is a `gorm:"..."` string. It is `gorm:"primaryKey"` exactly for key PRI, and starts with `gorm:"index;` for key MUL. |
| `Migrate.GetColumns` | cmd/migration/migrate.go:72-90 | Exactly one column per introspection row, in row order, typed by `ColumnGoType` and tagged by `ColumnTag`. |
| `Migrate.GetRelations` | cmd/migration/migrate.go:114-121 | Exactly one `BelongsTo` relation per row, in row order, with the referencing column as key and the referenced table. |
| `Migrate.TinyintIsInt` | cmd/migration/migrate.go:74-75 | `tinyint(1)` becomes `int`, since it contains "int". |
| `Migrate.PointIsInt` | cmd/migration/migrate.go:74-75 | The substring test also makes `point` an `int`. |
| `Migrate.BoolIsBool` | cmd/migration/migrate.go:73-80 | A type containing "bool" and none of the letters of the numeric names becomes `bool`. |
| `Migrate.NoCharNoContains` | cmd/migration/migrate.go:74-78 | A type lacking a letter of a pattern does not contain the pattern, so that case is skipped. |
| `Migrate.ColumnTagNamesColumn` | cmd/migration/migrate.go:82-87 | A PRI column gets `gorm:"primaryKey"` with no column name; every other tag names the column. |
| `Migrate.TemplateModelFile` | cmd/migration/migrate.go:206-308 | The `+=` loop over the columns yields `ModelFile`: path `internal/models/<StructName>.go`, header, the lines of every column in order, closing brace. |
| `Migrate.TypeName` | cmd/migration/src/generator.go:17-23 | Title-case, drop spaces, trim one trailing "s": exactly `StructName`. |
| `Migrate.ColumnLines` | cmd/migration/src/generator.go:66-107 | The body of the column loop, with its early `continue` for a foreign key, appends exactly `FieldLines`. |
| `Migrate.ModelGoType` | cmd/migration/migrate.go:260-270 | The Go type is one of five names. It is `int` exactly when the SQL type contains "int". It is `float64` exactly when the type contains "float", "double" or "decimal" but not "int". It is `time.Time` exactly when the type contains "date", "datetime" or "timestamp" and none of the earlier names. It is `string` exactly when the type contains none of the seven names tested. |
| `Migrate.FieldLines` | cmd/migration/src/generator.go:82-107 | The lines a column contributes start with a new tab-indented line naming its Pascal-case field. |
| `Migrate.BigintBranchDead` | cmd/migration/src/generator.go:72-75 | No SQL type gets `int64`: the `bigint` case is unreachable and `bigint(20)` becomes `int`. |
| `Migrate.DateIsTime` | cmd/migration/migrate.go:268-269 | A date or timestamp type (such as `date`, `datetime`, `timestamp`) not caught by an earlier case becomes `time.Time`. |
| `Migrate.ForeignKeyOverridesTypeAndKey` | cmd/migration/src/generator.go:86-94 | A foreign-key column's lines depend on neither its SQL type nor its key, and carry the index tag: it overrides PRI and is typed `int`. |
| `Migrate.FieldLinesCarryDbTag` | cmd/migration/src/generator.go:82-94 | Every generated field for a column carries `db:"<column>"`, the tag the mapper matches on. |
| `Migrate.ModelBodyOrder` | cmd/migration/migrate.go:256-298 | The struct body is the lines of the earlier columns, then this column's, then the later columns'. |
| `Migrate.ModelContentStep` | cmd/migration/src/generator.go:94-107 | One loop iteration extends the content by exactly that column's lines. |
| `Migrate.ModelTables` | cmd/migration/migrate.go:194-200 | The filter never adds tables. |
| `Migrate.GenerateModels` | cmd/migration/migrate.go:185-204 | One model file per table not excluded, in `SHOW TABLES` order, each `ModelFile` of that table's introspection. |
| `Migrate.ModelTablesMembers` | cmd/migration/migrate.go:189-198 | A table gets a model exactly when it is listed and is neither `migrations` nor `registry`. |
| `Migrate.TemplateMigration` | cmd/migration/src/generator.go:120-144 | The `Up` function's name is `MigrationFuncName` of the table and timestamp: `Up`, the timestamp, then the Pascal-case table name. The file is `migrations/<timestamp>_<table>.go`, and its content drops exactly the table it was generated for. |
| `Migrate.MigrationFuncName` | cmd/migration/src/generator.go:126 | The `Up` function's name starts with `Up` and the timestamp. |
| `Migrate.MigrationDropsItsTable` | cmd/migration/src/generator.go:141-143 | The `Down` function of a new migration drops exactly the table it was generated for. |
| `Migrate.DownNameReadsBackAsUp` | cmd/migration/src/generator.go:141-143 | A migration's `Down` function is named `Down` followed by its `Up` name. That name reads back as the same table as the `Up` name. |
| `Migrate.MigrationRoundTrip` | cmd/migration/migrate.go:361-366 | For a one-word lower-case table, `resetDatabase` reads back from the migration's `Up` name exactly the table it creates. |
| `Migrate.MigrationNameLosesUnderscore` | cmd/migration/migrate.go:362 | For a table `a_b`, the name read back is `ab`, never `a_b`. |
| `Migrate.UserRolesLosesUnderscore` | cmd/migration/src/drop.go:92 | For the table `user_roles`, `ResetDatabase` drops `userroles`. |
| `Migrate.SnakeMigrationRoundTrip` | cmd/migration/migrate.go:361-366 | The corrected read-back recovers one- and two-word snake-case table names. |

## Left out

- Database and file I/O are not modelled. The driver is an oracle (`Driver`). The migration tool's introspection results (`SHOW TABLES`, `SHOW COLUMNS`, `KEY_COLUMN_USAGE`) are given as arguments, and generated files are returned instead of written. This covers `os.Create`, `WriteFile`, `MkdirAll`, gorm `Raw`, `AutoMigrate`, `DropTable` and `log.Fatal`.
- The `SHOW CREATE TABLE` foreign-key regular expression is not modelled: the map from column to referenced table is an input of `TemplateModelFile`. Its greedy `.*` cannot be stated without a regex engine.
- Floating point is not modelled. `float64` values are opaque bit patterns. `int64(f)`, `strconv.ParseFloat` and the `%v` rendering of a float are the uninterpreted functions of `FloatOps`.
- `cases.Title` of golang.org/x/text is modelled for ASCII only. `strings.ToLower` is modelled as ASCII lower-casing. Unicode case mapping is out of scope.
- Naming.Title: a word starts only at the beginning of the text or after a space, and the character that starts it is the one upper-cased. Unicode title-casing also starts a word after a digit run or at punctuation such as `-`, and upper-cases the first letter there. The model does not capture this. Table `top_10s` gives struct `Top10S` in the source but `Top10` in the model (`Pascal` gives `Top10s`, then `Singular` drops the final "s"). Column `address_2nd` gives field `Address2Nd` in the source but `Address2nd` in the model. The same gap carries over to `Naming.Pascal`, `Naming.StructName`, `Migrate.TypeName`, `Migrate.FieldLines` and the model-file text built from them.
- Reflection failure modes are not modelled.
  - The `default:` branch of `copyValuesToStruct`, which assigns the raw cell and panics on a type mismatch, is modelled as leaving a field of any other kind unchanged.
  - `CanSet` is not modelled: every field counts as settable, since unexported fields are a Go visibility matter.
- A relation field whose type is not a struct makes the nested `Find` panic in `getStructFields`; the model skips such a field instead. A pointer-typed relation field, whose `Type.Name()` is "", is skipped too.
- `Coerce.CopyCell`, `Coerce.CopyRow`, `Coerce.Record.CopyValuesToStruct`, `Client.FindResult`, `Client.DBClient.Find`, `Client.DBClient.All`: these model the intended nested-struct copy, where the nested field tagged with the column receives the cell. When a nested struct field has a field carrying the matched `db` tag, the source panics instead (internal/storage/query.go:246-248); only `Coerce.NestedCopyAsWritten` models that panic (see Findings).
- `FieldByName` is modelled over the struct's own declared fields; promotion through embedded structs is not.
- The nested `Find` takes the Go `int` id; ids are 64-bit (`Int64`), matching a 64-bit platform, and wrap-around never arises because values only pass through.
- `All` never calls `rows.Err()`. When the driver fails part way through the result set, `rows.Next()` returns false, and `All` reports success with the rows read so far. The model's `query` answer covers this only as a shorter row list; the iteration error itself is not represented. `rows.Close()` is not modelled. A row scans when it has one cell per destination; scanning into `*interface{}` has no conversion errors.
- `LastInsertId` and `RowsAffected` are answers of the driver (`Reply`), not computed.
- The clock reading of `templateMigration` is a `timestamp` parameter. `CreateMigration` (cmd/migration/src/generator.go:164-197) is a copy of `TemplateMigration` apart from how a write error is reported, and is not modelled separately.
- `getTables`, `updateModelRegistry`, `updateRegistryMigrations`, `deleteModelFile`, `downAll`, `downTable`, `main`, and the drop loop of `resetDatabase` are file-system and database plumbing, and are left out. Only the table name the drop loop reads back, by `extractTableName`, is modelled.
- `Migrate.BoolIsBool`: stated for type names without the letters i, f and d, rather than for every name containing "bool", because a name such as `boolint` is caught by an earlier case.
- `Migrate.DateIsTime`: stated for type names without the letters n, f, o and c, rather than for every name containing "date" or "timestamp", because a name such as `dateint` is caught by an earlier case.

## Findings

| source | as written | input that shows it | evidently intended | confidence | as-written member | corrected member |
|---|---|---|---|---|---|---|
| internal/storage/query/structs.go:87-89 | The nested-struct branch passes the cell itself (`*val`) to the recursive call, which asserts each value is a `*interface{}`. | A struct field tagged `db:"name"` of a struct type whose field `Name` is also tagged `db:"name"`, with the cell `"alice"`: the inner type assertion panics. | The nested field tagged with the column receives the cell, coerced by its kind. | not executed | `Coerce.NestedCopyAsWritten`, `Coerce.NestedCopyPanics` | `Coerce.CopyCell`, `Coerce.CopyIntoNested` |
| cmd/migration/migrate.go:371-378 | `extractTableName` lower-cases the Pascal-case letters of the `Up` name, so the underscores of a snake-case table name are lost. `resetDatabase` and `ResetDatabase` drop that name. | Table `user_roles`: the migration `Up<ts>UserRoles` reads back as `userroles`, so the drop targets a table that does not exist. | The read-back gives the table name the migration was generated from: `user_roles`. | not executed | `Migrate.MigrationNameLosesUnderscore`, `Migrate.UserRolesLosesUnderscore` | `Naming.ExtractSnakeTableName`, `Migrate.SnakeMigrationRoundTrip` |
