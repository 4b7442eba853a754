/**
 * The rules of the migration tool that turn database introspection rows
 * into Go source: `getColumns` and `getRelations`, the field lines of
 * `templateModelFile`, the table filter of `generateModels`, and the names
 * and text of a new migration file.
 */
module Migrate {
  import opened Wrappers
  import opened Strs
  import opened Strconv
  import opened Naming

  /** One row of `SHOW COLUMNS FROM t`, the fields the tool reads. */
  datatype ShowColumnsRow = ShowColumnsRow(field: string, sqlType: string, key: string)

  /** `ColumnInfo`. */
  datatype ColumnInfo = ColumnInfo(name: string, goType: string, tag: string)

  /** One row of `INFORMATION_SCHEMA.KEY_COLUMN_USAGE` with a referenced table. */
  datatype KeyUsageRow = KeyUsageRow(table: string, column: string, referencedTable: string, referencedColumn: string)

  /** `Relation`. */
  datatype Relation = Relation(relatedTable: string, foreignKey: string, relationType: string)

  /** The Go type `getColumns` picks for an SQL type: the first of int, float/double/decimal, bool that the type name contains. */
  function ColumnGoType(sqlType: string): (r: string)
    ensures r in {"int", "float64", "bool", "string"}
    ensures r == "int" <==> Contains(sqlType, "int")
    ensures r == "float64" <==>
      !Contains(sqlType, "int") &&
      (Contains(sqlType, "float") || Contains(sqlType, "double") || Contains(sqlType, "decimal"))
    ensures r == "string" <==>
      !Contains(sqlType, "int") && !Contains(sqlType, "float") && !Contains(sqlType, "double") &&
      !Contains(sqlType, "decimal") && !Contains(sqlType, "bool")
  {
    if Contains(sqlType, "int") then "int"
    else if Contains(sqlType, "float") || Contains(sqlType, "double") || Contains(sqlType, "decimal") then "float64"
    else if Contains(sqlType, "bool") then "bool"
    else "string"
  }

  /** The tag `getColumns` picks: a primary key loses its column name, an indexed (`MUL`) key gains `index`. */
  function ColumnTag(field: string, key: string): (r: string)
    ensures HasPrefix(r, "gorm:\"") && r[|r| - 1] == '"'
    ensures key == "PRI" <==> r == "gorm:\"primaryKey\""
    ensures key == "MUL" ==> HasPrefix(r, "gorm:\"index;")
  {
    if key == "PRI" then "gorm:\"primaryKey\""
    else
      var r := if key == "MUL" then "gorm:\"index;column:" + field + "\"" else "gorm:\"column:" + field + "\"";
      assert r[6] != "gorm:\"primaryKey\""[6];
      r
  }

  function ColumnOf(row: ShowColumnsRow): ColumnInfo {
    ColumnInfo(row.field, ColumnGoType(row.sqlType), ColumnTag(row.field, row.key))
  }

  /** `getColumns`: one `ColumnInfo` per row, in row order. */
  method GetColumns(rows: seq<ShowColumnsRow>) returns (columns: seq<ColumnInfo>)
    ensures |columns| == |rows|
    ensures forall k :: 0 <= k < |rows| ==> columns[k] == ColumnOf(rows[k])
  {
    columns := [];
    for k := 0 to |rows|
      invariant |columns| == k
      invariant forall m :: 0 <= m < k ==> columns[m] == ColumnOf(rows[m])
    {
      var row := rows[k];
      var colType := "string";
      if Contains(row.sqlType, "int") {
        colType := "int";
      } else if Contains(row.sqlType, "float") || Contains(row.sqlType, "double") || Contains(row.sqlType, "decimal") {
        colType := "float64";
      } else if Contains(row.sqlType, "bool") {
        colType := "bool";
      }
      var tag := "gorm:\"column:" + row.field + "\"";
      if row.key == "PRI" {
        tag := "gorm:\"primaryKey\"";
      } else if row.key == "MUL" {
        tag := "gorm:\"index;column:" + row.field + "\"";
      }
      columns := columns + [ColumnInfo(row.field, colType, tag)];
    }
  }

  /** `getRelations`: every referencing row becomes a `BelongsTo` relation to the referenced table, keyed by the referencing column. */
  method GetRelations(rows: seq<KeyUsageRow>) returns (relations: seq<Relation>)
    ensures |relations| == |rows|
    ensures forall k :: 0 <= k < |rows| ==>
      relations[k] == Relation(rows[k].referencedTable, rows[k].column, "BelongsTo")
  {
    relations := [];
    for k := 0 to |rows|
      invariant |relations| == k
      invariant forall m :: 0 <= m < k ==> relations[m] == Relation(rows[m].referencedTable, rows[m].column, "BelongsTo")
    {
      var relationType := "BelongsTo";
      relations := relations + [Relation(rows[k].referencedTable, rows[k].column, relationType)];
    }
  }

  /** Any type name containing `int` is an integer, so MySQL's `tinyint(1)` booleans become `int`. */
  lemma TinyintIsInt()
    ensures ColumnGoType("tinyint(1)") == "int"
  {
    ContainsAt("tinyint(1)", "int", 4);
  }

  /** The substring test also sends the spatial type `point` to `int`. */
  lemma PointIsInt()
    ensures ColumnGoType("point") == "int"
  {
    ContainsAt("point", "int", 2);
  }

  /**
   * A `bool` type name (`bool`, `boolean`) becomes `bool`: a name without
   * the letters i, f and d matches none of the numeric cases before it.
   */
  lemma BoolIsBool(sqlType: string)
    requires 'i' !in sqlType && 'f' !in sqlType && 'd' !in sqlType
    requires Contains(sqlType, "bool")
    ensures ColumnGoType(sqlType) == "bool"
  {
    NoCharNoContains(sqlType, "int", 'i');
    NoCharNoContains(sqlType, "float", 'f');
    NoCharNoContains(sqlType, "double", 'd');
    NoCharNoContains(sqlType, "decimal", 'd');
  }

  /** A string lacking some character of `sub` does not contain `sub`. */
  lemma {:induction false} NoCharNoContains(s: string, sub: string, c: char)
    requires c in sub && c !in s
    ensures !Contains(s, sub)
    decreases |s|
  {
    var j :| 0 <= j < |sub| && sub[j] == c;
    if |sub| <= |s| {
      assert s[..|sub|][j] != c;
    }
    if |s| > 0 {
      NoCharNoContains(s[1..], sub, c);
    }
  }

  /** A primary key column's tag carries no column name; every other tag names the column. */
  lemma ColumnTagNamesColumn(field: string, key: string)
    ensures key == "PRI" ==> ColumnTag(field, key) == "gorm:\"primaryKey\""
    ensures key != "PRI" ==> Contains(ColumnTag(field, key), "column:" + field)
  {
    if key != "PRI" {
      var pre := if key == "MUL" then "gorm:\"index;" else "gorm:\"";
      assert ColumnTag(field, key) == pre + ("column:" + field) + "\"";
      ContainsAt("column:" + field, "column:" + field, 0);
      ContainsExtend(pre, "column:" + field, "\"", "column:" + field);
    }
  }

  /** Every type name containing "bigint" contains "int". */
  lemma BigintContainsInt(sqlType: string)
    ensures Contains(sqlType, "bigint") ==> Contains(sqlType, "int")
  {
    ContainsAt("bigint", "int", 3);
    if Contains(sqlType, "bigint") {
      ContainsTransitive(sqlType, "bigint", "int");
    }
  }

  /**
   * The Go type `templateModelFile` picks, case by case as its `switch`
   * tests them. The `bigint` case comes after `int`, which every `bigint`
   * type also contains.
   */
  function ModelGoType(sqlType: string): (r: string)
    ensures r in {"int", "int64", "float64", "time.Time", "string"}
    ensures r == "int" <==> Contains(sqlType, "int")
    ensures r == "float64" <==>
      !Contains(sqlType, "int") &&
      (Contains(sqlType, "float") || Contains(sqlType, "double") || Contains(sqlType, "decimal"))
    ensures r == "time.Time" <==>
      !Contains(sqlType, "int") && !Contains(sqlType, "float") && !Contains(sqlType, "double") &&
      !Contains(sqlType, "decimal") &&
      (Contains(sqlType, "datetime") || Contains(sqlType, "timestamp") || Contains(sqlType, "date"))
    ensures r == "string" <==>
      !Contains(sqlType, "int") && !Contains(sqlType, "bigint") && !Contains(sqlType, "float") &&
      !Contains(sqlType, "double") && !Contains(sqlType, "decimal") && !Contains(sqlType, "datetime") &&
      !Contains(sqlType, "timestamp") && !Contains(sqlType, "date")
  {
    BigintContainsInt(sqlType);
    if Contains(sqlType, "int") then "int"
    else if Contains(sqlType, "bigint") then "int64"
    else if Contains(sqlType, "float") || Contains(sqlType, "double") || Contains(sqlType, "decimal") then "float64"
    else if Contains(sqlType, "datetime") || Contains(sqlType, "timestamp") || Contains(sqlType, "date") then "time.Time"
    else "string"
  }

  /** The `db` tag the record mapper matches a column on. */
  function DbTag(field: string): string {
    "db:\"" + field + "\""
  }

  function GormTag(field: string): string {
    "gorm:\"column:" + field + "\""
  }

  /** The tags of an ordinary field: `db` and `gorm` column names, and `primaryKey` for the primary key. */
  function DataTag(field: string, key: string): string {
    if key == "PRI" then "`" + DbTag(field) + " gorm:\"primaryKey;column:" + field + "\"`"
    else "`" + DbTag(field) + " " + GormTag(field) + "`"
  }

  /** The tags of a foreign-key field, whatever its key kind. */
  function IndexTag(field: string): string {
    "`" + DbTag(field) + " gorm:\"index;column:" + field + "\"`"
  }

  /** The tag of the relation field that follows a foreign-key field named `fieldName`. */
  function RelationTag(fieldName: string): string {
    "`gorm:\"foreignKey:" + fieldName + ";references:ID;constraint:OnUpdate:CASCADE,OnDelete:SET NULL;\"`"
  }

  /** One struct field line: name, type and tags, after a newline and a tab. */
  function FieldLine(name: string, goType: string, tags: string): string {
    "\n\t" + name + " " + goType + " " + tags
  }

  /**
   * The text one column adds to the struct: a foreign-key column becomes an
   * `int` field with the index tag, followed by a relation field whose name
   * and type are the referenced table's struct name; any other column
   * becomes one field typed by `ModelGoType`.
   */
  function FieldLines(col: ShowColumnsRow, foreignKeys: map<string, string>): (r: string)
    ensures HasPrefix(r, "\n\t" + Pascal(col.field) + " ")
  {
    var fieldName := Pascal(col.field);
    var head := "\n\t" + fieldName + " ";
    if col.field in foreignKeys then
      var related := StructName(foreignKeys[col.field]);
      var line := FieldLine(fieldName, "int", IndexTag(col.field));
      FieldLinePrefix(fieldName, "int", IndexTag(col.field));
      PrefixAppend(head, line, FieldLine(related, related, RelationTag(fieldName)));
      line + FieldLine(related, related, RelationTag(fieldName))
    else
      FieldLinePrefix(fieldName, ModelGoType(col.sqlType), DataTag(col.field, col.key));
      FieldLine(fieldName, ModelGoType(col.sqlType), DataTag(col.field, col.key))
  }

  lemma FieldLinePrefix(name: string, goType: string, tags: string)
    ensures HasPrefix(FieldLine(name, goType, tags), "\n\t" + name + " ")
  {
    var head := "\n\t" + name + " ";
    assert FieldLine(name, goType, tags)[..|head|] == head;
  }

  /** The struct body: the field lines of all columns, in column order. */
  function ModelBody(columns: seq<ShowColumnsRow>, foreignKeys: map<string, string>): string {
    ConcatMap(columns, col => FieldLines(col, foreignKeys))
  }

  function ModelHeader(structName: string): string {
    "package models\n\ntype " + structName + " struct {"
  }

  /** A generated source file: its path and its text. */
  datatype SourceFile = SourceFile(filename: string, content: string)

  /** The model file generated for a table with the given columns and foreign keys (column to referenced table). */
  function ModelFile(tableName: string, columns: seq<ShowColumnsRow>, foreignKeys: map<string, string>): SourceFile {
    SourceFile(
      "internal/models/" + StructName(tableName) + ".go",
      ModelHeader(StructName(tableName)) + ModelBody(columns, foreignKeys) + "\n}")
  }

  /**
   * `templateModelFile`, without the file system and the database: the
   * columns of `SHOW COLUMNS` and the foreign keys read from `SHOW CREATE
   * TABLE` are given, and the file is returned instead of written.
   */
  method TemplateModelFile(tableName: string, columns: seq<ShowColumnsRow>, foreignKeys: map<string, string>) returns (file: SourceFile)
    ensures file == ModelFile(tableName, columns, foreignKeys)
  {
    var structName := TypeName(tableName);
    var modelFilename := "internal/models/" + structName + ".go";
    var modelContent := ModelHeader(structName);
    for k := 0 to |columns|
      invariant modelContent == ModelHeader(structName) + ModelBody(columns[..k], foreignKeys)
    {
      var lines := ColumnLines(columns[k], foreignKeys);
      ModelContentStep(ModelHeader(structName), columns, foreignKeys, k);
      modelContent := modelContent + lines;
    }
    assert columns[..|columns|] == columns;
    modelContent := modelContent + "\n}";
    file := SourceFile(modelFilename, modelContent);
  }

  lemma ModelContentStep(header: string, columns: seq<ShowColumnsRow>, foreignKeys: map<string, string>, k: nat)
    requires k < |columns|
    ensures header + ModelBody(columns[..k], foreignKeys) + FieldLines(columns[k], foreignKeys) ==
      header + ModelBody(columns[..k + 1], foreignKeys)
  {
    assert columns[..k + 1][..k] == columns[..k];
    assert header + ModelBody(columns[..k], foreignKeys) + FieldLines(columns[k], foreignKeys) ==
      header + (ModelBody(columns[..k], foreignKeys) + FieldLines(columns[k], foreignKeys));
  }

  /** The title-casing, space removal and trailing-`s` trim `templateModelFile` applies to a table name. */
  method TypeName(table: string) returns (name: string)
    ensures name == StructName(table)
  {
    name := Pascal(table);
    if HasSuffix(name, "s") {
      name := name[..|name| - 1];
    }
  }

  /** The body of the column loop of `templateModelFile`: the lines one column appends. */
  method ColumnLines(col: ShowColumnsRow, foreignKeys: map<string, string>) returns (lines: string)
    ensures lines == FieldLines(col, foreignKeys)
  {
    var fieldName := Pascal(col.field);
    var colType := ModelGoType(col.sqlType);
    var tags := DataTag(col.field, col.key);
    if col.field in foreignKeys {
      var fkTable := foreignKeys[col.field];
      tags := IndexTag(col.field);
      colType := "int";
      lines := FieldLine(fieldName, colType, tags);
      var relatedStruct := TypeName(fkTable);
      lines := lines + FieldLine(relatedStruct, relatedStruct, RelationTag(fieldName));
      return;
    }
    lines := FieldLine(fieldName, colType, tags);
  }

  /** `bigint` contains `int`, so the `int64` case of the type switch is never taken: a `bigint(20)` column becomes `int`. */
  lemma BigintBranchDead(sqlType: string)
    ensures ModelGoType(sqlType) != "int64"
    ensures ModelGoType("bigint(20)") == "int"
  {
    ContainsAt("bigint", "int", 3);
    if Contains(sqlType, "bigint") {
      ContainsTransitive(sqlType, "bigint", "int");
    }
    ContainsAt("bigint(20)", "int", 3);
  }

  /**
   * A date or time type (`date`, `datetime`, `timestamp`) becomes `time.Time`: a name without
   * the letters n, f, o and c matches none of the numeric cases before it.
   */
  lemma DateIsTime(sqlType: string)
    requires 'n' !in sqlType && 'f' !in sqlType && 'o' !in sqlType && 'c' !in sqlType
    requires Contains(sqlType, "date") || Contains(sqlType, "timestamp")
    ensures ModelGoType(sqlType) == "time.Time"
  {
    NoCharNoContains(sqlType, "int", 'n');
    NoCharNoContains(sqlType, "bigint", 'n');
    NoCharNoContains(sqlType, "float", 'f');
    NoCharNoContains(sqlType, "double", 'o');
    NoCharNoContains(sqlType, "decimal", 'c');
  }

  /** A foreign-key column's lines depend on neither its SQL type nor its key: the index tag replaces any primary-key tag. */
  lemma ForeignKeyOverridesTypeAndKey(col: ShowColumnsRow, foreignKeys: map<string, string>, sqlType: string, key: string)
    requires col.field in foreignKeys
    ensures FieldLines(col, foreignKeys) == FieldLines(ShowColumnsRow(col.field, sqlType, key), foreignKeys)
    ensures Contains(FieldLines(col, foreignKeys), IndexTag(col.field))
  {
    var fieldName := Pascal(col.field);
    var related := StructName(foreignKeys[col.field]);
    var pre := "\n\t" + fieldName + " " + "int" + " ";
    var post := "\n\t" + related + " " + related + " " + RelationTag(fieldName);
    assert FieldLines(col, foreignKeys) == pre + IndexTag(col.field) + post;
    ContainsAt(IndexTag(col.field), IndexTag(col.field), 0);
    ContainsExtend(pre, IndexTag(col.field), post, IndexTag(col.field));
  }

  /** Every field generated for a column carries `db:"<column>"`, the tag the record mapper matches on. */
  lemma FieldLinesCarryDbTag(col: ShowColumnsRow, foreignKeys: map<string, string>)
    ensures Contains(FieldLines(col, foreignKeys), DbTag(col.field))
  {
    var f := col.field;
    var db := DbTag(f);
    ContainsAt(db, db, 0);
    ContainsAppendLeft("`", db, db);
    var fieldName := Pascal(f);
    if f in foreignKeys {
      ContainsAppendRight("`" + db, " gorm:\"index;column:", db);
      ContainsAppendRight("`" + db + " gorm:\"index;column:", f, db);
      ContainsAppendRight("`" + db + " gorm:\"index;column:" + f, "\"`", db);
      var pre := "\n\t" + fieldName + " " + "int" + " ";
      ContainsAppendLeft(pre, IndexTag(f), db);
      var related := StructName(foreignKeys[f]);
      ContainsAppendRight(FieldLine(fieldName, "int", IndexTag(f)), FieldLine(related, related, RelationTag(fieldName)), db);
    } else {
      if col.key == "PRI" {
        ContainsAppendRight("`" + db, " gorm:\"primaryKey;column:", db);
        ContainsAppendRight("`" + db + " gorm:\"primaryKey;column:", f, db);
        ContainsAppendRight("`" + db + " gorm:\"primaryKey;column:" + f, "\"`", db);
      } else {
        ContainsAppendRight("`" + db, " ", db);
        ContainsAppendRight("`" + db + " ", GormTag(f), db);
        ContainsAppendRight("`" + db + " " + GormTag(f), "`", db);
      }
      var pre := "\n\t" + fieldName + " " + ModelGoType(col.sqlType) + " ";
      ContainsAppendLeft(pre, DataTag(f, col.key), db);
    }
  }

  /** The struct body holds every column's lines, each column's after those of the columns before it. */
  lemma ModelBodyOrder(columns: seq<ShowColumnsRow>, foreignKeys: map<string, string>, k: nat)
    requires k < |columns|
    ensures ModelBody(columns, foreignKeys) ==
      ModelBody(columns[..k], foreignKeys) + FieldLines(columns[k], foreignKeys) + ModelBody(columns[k + 1..], foreignKeys)
  {
    var f := col => FieldLines(col, foreignKeys);
    assert columns == columns[..k] + [columns[k]] + columns[k + 1..];
    ConcatMapAppend(columns[..k] + [columns[k]], columns[k + 1..], f);
    ConcatMapAppend(columns[..k], [columns[k]], f);
    assert [columns[k]][..0] == [];
  }

  /** The tables `generateModels` never generates a model for. */
  predicate Excluded(table: string) {
    table == "migrations" || table == "registry"
  }

  /** The tables `generateModels` passes to `templateModelFile`, in `SHOW TABLES` order. */
  function ModelTables(tables: seq<string>): (r: seq<string>)
    ensures |r| <= |tables|
  {
    if |tables| == 0 then []
    else ModelTables(tables[..|tables| - 1]) + (if Excluded(tables[|tables| - 1]) then [] else [tables[|tables| - 1]])
  }

  /**
   * `generateModels`: one model file per table that is not excluded. The
   * introspection of each table is given as `columnsOf` and `foreignKeysOf`.
   */
  method GenerateModels(tables: seq<string>, columnsOf: string -> seq<ShowColumnsRow>, foreignKeysOf: string -> map<string, string>)
    returns (files: seq<SourceFile>)
    ensures |files| == |ModelTables(tables)|
    ensures forall k :: 0 <= k < |files| ==>
      files[k] == ModelFile(ModelTables(tables)[k], columnsOf(ModelTables(tables)[k]), foreignKeysOf(ModelTables(tables)[k]))
  {
    files := [];
    ghost var kept: seq<string> := [];
    for k := 0 to |tables|
      invariant kept == ModelTables(tables[..k])
      invariant |files| == |kept|
      invariant forall m :: 0 <= m < |files| ==> files[m] == ModelFile(kept[m], columnsOf(kept[m]), foreignKeysOf(kept[m]))
    {
      ModelTablesStep(tables, k);
      var table := tables[k];
      if Excluded(table) {
        continue;
      }
      var file := TemplateModelFile(table, columnsOf(table), foreignKeysOf(table));
      files := files + [file];
      kept := kept + [table];
    }
    assert tables[..|tables|] == tables;
  }

  /** One more listed table: it is kept unless it is excluded. */
  lemma ModelTablesStep(tables: seq<string>, k: nat)
    requires k < |tables|
    ensures ModelTables(tables[..k + 1]) == ModelTables(tables[..k]) + (if Excluded(tables[k]) then [] else [tables[k]])
  {
    assert tables[..k + 1][..k] == tables[..k];
  }

  /** A table gets a model exactly when it is listed and is neither `migrations` nor `registry`. */
  lemma {:induction false} ModelTablesMembers(tables: seq<string>, t: string)
    ensures t in ModelTables(tables) <==> t in tables && !Excluded(t)
    decreases |tables|
  {
    if |tables| > 0 {
      var init := tables[..|tables| - 1];
      ModelTablesMembers(init, t);
      assert tables == init + [tables[|tables| - 1]];
    }
  }

  /** A new migration: the name of its `Up` function, its path, and its text. */
  datatype MigrationFile = MigrationFile(funcName: string, filename: string, content: string)

  /** The call the `Down` function makes. */
  function DropCall(tableName: string): string {
    "DropTable(\"" + tableName + "\")"
  }

  /** The `Up` function: it declares a struct for the table and creates the table from it. */
  function UpFunction(funcName: string, structName: string): string {
    "func " + funcName + "(db *gorm.DB) error {\n\ttype " + structName +
    " struct {\n\t\tID   uint   `gorm:\"primaryKey\"`\n\t\tName string `gorm:\"type:varchar(100)\"`\n\t}\n\treturn db.AutoMigrate(&" +
    structName + "{})\n}"
  }

  /** The `Down` function: named `Down` + the whole `Up` name, it drops the table. */
  function DownFunction(funcName: string, tableName: string): string {
    DownHead(funcName) + DropCall(tableName) + "\n}\n"
  }

  function DownHead(funcName: string): string {
    "func Down" + funcName + "(db *gorm.DB) error {\n\treturn db.Migrator()."
  }

  /** The text of a new migration: the package clause, the import, and the two functions. */
  function MigrationContent(funcName: string, structName: string, tableName: string): string {
    MigrationHead(funcName, structName) + DownFunction(funcName, tableName)
  }

  /** Everything before the `Down` function. */
  function MigrationHead(funcName: string, structName: string): string {
    "package migrations\n\nimport \"gorm.io/gorm\"\n\n" + UpFunction(funcName, structName) + "\n\n"
  }

  /** The name of the `Up` function of a new migration: `Up`, the clock reading, the Pascal-case table name. */
  function MigrationFuncName(tableName: string, timestamp: string): (r: string)
    ensures HasPrefix(r, "Up" + timestamp)
  {
    "Up" + timestamp + Pascal(tableName)
  }

  /** The `Down` function of a migration drops exactly the table it was generated for. */
  lemma MigrationDropsItsTable(funcName: string, structName: string, tableName: string)
    ensures Contains(MigrationContent(funcName, structName, tableName), DropCall(tableName))
  {
    ContainsMiddle(DownHead(funcName), DropCall(tableName), "\n}\n");
    ContainsAppendLeft(MigrationHead(funcName, structName), DownFunction(funcName, tableName), DropCall(tableName));
  }

  /**
   * `TemplateMigration`, with the clock reading given as `timestamp` and the
   * file returned instead of written: the file lies under `migrations/`,
   * named by the clock reading and the table, its `Up` function is named by
   * the clock reading, and its `Down` function drops the table. Unlike a
   * model's struct name, the migration's struct name is not singularised.
   */
  function TemplateMigration(tableName: string, timestamp: string): (r: MigrationFile)
    ensures r.funcName == MigrationFuncName(tableName, timestamp)
    ensures HasPrefix(r.funcName, "Up" + timestamp)
    ensures r.filename == "migrations/" + timestamp + "_" + tableName + ".go"
    ensures Contains(r.content, DropCall(tableName))
  {
    var structName := Pascal(tableName);
    var funcName := MigrationFuncName(tableName, timestamp);
    MigrationDropsItsTable(funcName, structName, tableName);
    MigrationFile(funcName, "migrations/" + timestamp + "_" + tableName + ".go", MigrationContent(funcName, structName, tableName))
  }

  /**
   * For a table named by one lower-case word, the table name read back from
   * the new migration's function name, as `resetDatabase` reads it, is the
   * table the migration creates.
   */
  lemma MigrationRoundTrip(tableName: string, timestamp: string)
    requires |tableName| > 0 && AllLower(tableName)
    requires |timestamp| > 0 && AllDigits(timestamp)
    ensures ExtractTableName(MigrationFuncName(tableName, timestamp)) == tableName
  {
    PascalWordLower(tableName);
    ExtractTableNameOf(timestamp, Pascal(tableName));
  }

  /**
   * The name of a migration's `Down` function, `Down` followed by its `Up`
   * name, reads back as the same table as the `Up` name.
   */
  lemma DownNameReadsBackAsUp(tableName: string, timestamp: string)
    requires |Pascal(tableName)| > 0 && AllLetters(Pascal(tableName))
    requires |timestamp| > 0 && AllDigits(timestamp)
    ensures ExtractTableName("Down" + MigrationFuncName(tableName, timestamp)) ==
      ExtractTableName(MigrationFuncName(tableName, timestamp))
  {
    ExtractTableNameDownUp(timestamp, Pascal(tableName));
  }

  /**
   * For a table named by two lower-case words joined by `_`, the name read
   * back loses the underscore: `resetDatabase` drops `userroles` where the
   * migration created `user_roles`.
   */
  lemma MigrationNameLosesUnderscore(a: string, b: string, timestamp: string)
    requires |a| > 0 && AllLower(a) && |b| > 0 && AllLower(b)
    requires |timestamp| > 0 && AllDigits(timestamp)
    ensures ExtractTableName(MigrationFuncName(a + "_" + b, timestamp)) == a + b
    ensures ExtractTableName(MigrationFuncName(a + "_" + b, timestamp)) != a + "_" + b
  {
    PascalTwoWords(a, b);
    CapitalizedPair(a, b);
    ExtractTableNameOf(timestamp, Capitalized(a) + Capitalized(b));
  }

  /** The table `user_roles`, for any clock reading. */
  lemma UserRolesLosesUnderscore(timestamp: string)
    requires |timestamp| > 0 && AllDigits(timestamp)
    ensures ExtractTableName(MigrationFuncName("user_roles", timestamp)) == "userroles"
  {
    var a, b := "user", "roles";
    assert AllLower(a) && AllLower(b);
    assert a + "_" + b == "user_roles" && a + b == "userroles";
    MigrationNameLosesUnderscore(a, b, timestamp);
  }

  /** The corrected read-back recovers one- and two-word snake-case table names. */
  lemma SnakeMigrationRoundTrip(a: string, b: string, timestamp: string)
    requires |a| > 0 && AllLower(a) && |b| > 0 && AllLower(b)
    requires |timestamp| > 0 && AllDigits(timestamp)
    ensures ExtractSnakeTableName(MigrationFuncName(a, timestamp)) == a
    ensures ExtractSnakeTableName(MigrationFuncName(a + "_" + b, timestamp)) == a + "_" + b
  {
    PascalWordLower(a);
    MatchAtUpDigitsLetters(timestamp, Pascal(a));
    assert FindMatch("Up" + timestamp + Pascal(a), 0) == Some(Pascal(a));
    SnakePascalWord(a);
    PascalTwoWords(a, b);
    var p := Capitalized(a) + Capitalized(b);
    CapitalizedPair(a, b);
    MatchAtUpDigitsLetters(timestamp, p);
    assert FindMatch("Up" + timestamp + p, 0) == Some(p);
    SnakePascalTwoWords(a, b);
  }
}
