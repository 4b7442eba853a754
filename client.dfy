/**
 * `DBClient`: the five record operations over a database handle, and the
 * relation resolver `handleNestedRelations`. The database is a `Driver`
 * whose answers the model is given; `Find` and `handleNestedRelations` call
 * each other, one level per nested struct type.
 */
module Client {
  import opened Wrappers
  import opened Strconv
  import opened Schema
  import opened SqlText
  import opened Coerce
  import opened Relations

  /** The errors the operations return: the driver's own, `sql.ErrNoRows`, a `Scan` arity mismatch, and the bad-destination error of `All`. */
  datatype Error =
    | DriverError(msg: string)
    | NoRows
    | ScanArity(expected: nat, got: nat)
    | NotSlicePointer

  /** What `LastInsertId()` or `RowsAffected()` returns. */
  datatype Reply = Reply(n: Int64, err: Option<Error>)

  /** An `sql.Result`. */
  datatype ExecResult = ExecResult(lastInsertId: Reply, rowsAffected: Reply)

  /**
   * The database as `DBClient` sees it: the row `QueryRow(sql, args...)`
   * yields (or its error, `NoRows` when there is none), the rows of
   * `Query(sql)`, and the outcome of `Exec(sql, args...)`.
   */
  datatype Driver = Driver(
    queryRow: (string, seq<Cell>) -> Result<seq<Cell>, Error>,
    query: string -> Result<seq<seq<Cell>>, Error>,
    exec: (string, seq<Cell>) -> Result<ExecResult, Error>)

  /** `Scan` into `n` destinations: a row error passes through, and a row with a different number of columns is refused before anything is written. */
  function Scan(row: Result<seq<Cell>, Error>, n: nat): (r: Result<seq<Cell>, Error>)
    ensures r.Ok? <==> row.Ok? && |row.value| == n
    ensures r.Ok? ==> r.value == row.value
    ensures row.Err? ==> r == row
  {
    match row
    case Err(e) => Err(e)
    case Ok(cells) => if |cells| == n then Ok(cells) else Err(ScanArity(|cells|, n))
  }

  /** The row `Find(table, id, dest)` scans for a struct with fields `fields`. */
  function FetchRow(db: Driver, fields: seq<Field>, table: string, id: Int64): Result<seq<Cell>, Error> {
    Scan(db.queryRow(FindSql(table), [GoInt(id)]), |Columns(fields)|)
  }

  /**
   * The outcome of `Find(table, id, dest)` on a struct holding `vals`: the
   * new field values, or the error. Only the struct's own row can fail it;
   * a failed nested lookup never surfaces.
   */
  function FindResult(db: Driver, ops: FloatOps, fields: seq<Field>, vals: seq<Value>, table: string, id: Int64): (r: Result<seq<Value>, Error>)
    requires Typed(fields, vals)
    ensures r.Ok? ==> Typed(fields, r.value)
    ensures r.Err? <==> FetchRow(db, fields, table, id).Err?
    ensures r.Err? ==> r.error == FetchRow(db, fields, table, id).error
    decreases fields, 3
  {
    match FetchRow(db, fields, table, id)
    case Err(e) => Err(e)
    case Ok(cells) => Ok(Resolve(db, ops, fields, CopyRow(fields, vals, cells, Columns(fields), ops)))
  }

  /**
   * `handleNestedRelations`: each field, in order, is replaced by its
   * related record when there is one, looked up in the values as they stand.
   */
  function Resolve(db: Driver, ops: FloatOps, fields: seq<Field>, vals: seq<Value>): (r: seq<Value>)
    requires Typed(fields, vals)
    ensures Typed(fields, r)
    decreases fields, 2
  {
    RelatedStepTyped(db, ops, fields);
    OverlayTyped(fields, vals, |fields|, RelatedStep(db, ops, fields));
    Overlay(vals, |fields|, RelatedStep(db, ops, fields))
  }

  /** What one iteration of `handleNestedRelations` finds for field `i` of the values as they stand. */
  function RelatedStep(db: Driver, ops: FloatOps, fields: seq<Field>): (seq<Value>, nat) -> Option<Value>
    decreases fields, 1, 0
  {
    (prev: seq<Value>, i: nat) => if Typed(fields, prev) && i < |fields| then Related(db, ops, fields, prev, i) else None
  }

  /** A related record is always of its field's kind. */
  lemma RelatedStepTyped(db: Driver, ops: FloatOps, fields: seq<Field>)
    ensures StepTyped(fields, RelatedStep(db, ops, fields))
    decreases fields, 1, 1
  {
  }

  /** `vals` with field `i` replaced by the related record `r`, when there is one. */
  function Settle(vals: seq<Value>, i: nat, r: Option<Value>): (s: seq<Value>)
    requires i < |vals|
    ensures |s| == |vals|
    ensures forall k :: 0 <= k < |vals| && k != i ==> s[k] == vals[k]
    ensures s[i] == if r.Some? then r.value else vals[i]
  {
    match r
    case None => vals
    case Some(v) => vals[i := v]
  }

  /** Settling a field with a value of its kind keeps the values well typed. */
  lemma SettleTyped(fields: seq<Field>, vals: seq<Value>, i: nat, r: Option<Value>)
    requires Typed(fields, vals) && i < |fields|
    requires r.Some? ==> HasKind(r.value, fields[i].kind)
    ensures Typed(fields, Settle(vals, i, r))
  {
  }

  /** Every record `step` finds for a field of a well-typed struct has that field's kind. */
  ghost predicate StepTyped(fields: seq<Field>, step: (seq<Value>, nat) -> Option<Value>) {
    forall p: seq<Value>, i: nat :: Typed(fields, p) && i < |fields| && step(p, i).Some? ==> HasKind(step(p, i).value, fields[i].kind)
  }

  /**
   * The fields `0..n-1` of `vals` visited in order, each replaced by what
   * `step` finds for it in the values as they stand at that point.
   */
  function Overlay(vals: seq<Value>, n: nat, step: (seq<Value>, nat) -> Option<Value>): (r: seq<Value>)
    requires n <= |vals|
    ensures |r| == |vals|
  {
    if n == 0 then vals
    else
      var prev := Overlay(vals, n - 1, step);
      Settle(prev, n - 1, step(prev, n - 1))
  }

  /** Steps that find records of the right kinds keep the values well typed. */
  lemma {:induction false} OverlayTyped(fields: seq<Field>, vals: seq<Value>, n: nat, step: (seq<Value>, nat) -> Option<Value>)
    requires Typed(fields, vals) && n <= |fields| && StepTyped(fields, step)
    ensures Typed(fields, Overlay(vals, n, step))
    decreases n
  {
    if n > 0 {
      OverlayTyped(fields, vals, n - 1, step);
      SettleTyped(fields, Overlay(vals, n - 1, step), n - 1, step(Overlay(vals, n - 1, step), n - 1));
    }
  }

  /**
   * The related record for field `i` of a struct holding `vals`: present
   * only when the field has a usable foreign key, is a struct, and the
   * lookup into a fresh value of its type succeeds.
   */
  function Related(db: Driver, ops: FloatOps, fields: seq<Field>, vals: seq<Value>, i: nat): (r: Option<Value>)
    requires Typed(fields, vals) && i < |fields|
    ensures r.Some? ==> HasKind(r.value, fields[i].kind) && fields[i].kind.StructKind?
    ensures r.Some? ==> ForeignKey(fields, vals, fields[i]).Some?
    decreases fields, 0, i, 0
  {
    match ForeignKey(fields, vals, fields[i])
    case None => None
    case Some((table, id)) =>
      if fields[i].kind.StructKind? then
        match FindResult(db, ops, fields[i].kind.fields, ZeroVals(fields[i].kind.fields), table, id)
        case Err(_) => None
        case Ok(related) => Some(StructVal(related))
      else None
  }

  /** One element `All` appends: a zero struct filled from `cells`, then its relations resolved. */
  function Item(db: Driver, ops: FloatOps, fields: seq<Field>, cells: seq<Cell>): (r: seq<Value>)
    requires |Columns(fields)| <= |cells|
    ensures Typed(fields, r)
  {
    Resolve(db, ops, fields, CopyRow(fields, ZeroVals(fields), cells, Columns(fields), ops))
  }

  /**
   * The rows of a result set, each scanned into `n` destinations and turned
   * into an element by `item`, in row order; the first row that does not
   * scan stops it with that error.
   */
  function Collect<T>(rows: seq<seq<Cell>>, n: nat, item: seq<Cell> --> T): Result<seq<T>, Error>
    requires forall cells :: |cells| == n ==> item.requires(cells)
  {
    if |rows| == 0 then Ok([])
    else
      match Collect(rows[..|rows| - 1], n, item)
      case Err(e) => Err(e)
      case Ok(items) =>
        match Scan(Ok(rows[|rows| - 1]), n)
        case Err(e) => Err(e)
        case Ok(cells) => Ok(items + [item(cells)])
  }

  /**
   * The slice `All` builds from `rows`, or the first row's `Scan` error: it
   * succeeds exactly when every row has one cell per listed column, and then
   * holds one element per row, in row order; no rows give an empty slice.
   */
  function AllRows(db: Driver, ops: FloatOps, fields: seq<Field>, rows: seq<seq<Cell>>): (r: Result<seq<seq<Value>>, Error>)
    ensures r.Ok? <==> forall k :: 0 <= k < |rows| ==> |rows[k]| == |Columns(fields)|
    ensures r.Ok? ==> |r.value| == |rows|
  {
    var item := cells requires |Columns(fields)| <= |cells| => Item(db, ops, fields, cells);
    CollectOk(rows, |Columns(fields)|, item);
    var r := Collect(rows, |Columns(fields)|, item);
    if r.Ok? then CollectItems(rows, |Columns(fields)|, item); r else r
  }

  /** Element k of a successful `All` is the zero struct filled from row k, with its relations resolved. */
  lemma AllRowsItems(db: Driver, ops: FloatOps, fields: seq<Field>, rows: seq<seq<Cell>>, k: nat)
    requires AllRows(db, ops, fields, rows).Ok? && k < |rows|
    ensures |rows[k]| == |Columns(fields)| && AllRows(db, ops, fields, rows).value[k] == Item(db, ops, fields, rows[k])
  {
    CollectItems(rows, |Columns(fields)|, cells requires |Columns(fields)| <= |cells| => Item(db, ops, fields, cells));
  }

  /** One more row: it is appended when it scans, and its `Scan` error is the result when it does not. */
  lemma CollectStep<T>(rows: seq<seq<Cell>>, n: nat, item: seq<Cell> --> T, k: nat)
    requires forall cells :: |cells| == n ==> item.requires(cells)
    requires k < |rows|
    ensures Collect(rows[..k + 1], n, item) ==
      match Collect(rows[..k], n, item)
      case Err(e) => Err(e)
      case Ok(items) => if |rows[k]| == n then Ok(items + [item(rows[k])]) else Err(ScanArity(|rows[k]|, n))
  {
    assert rows[..k + 1][..k] == rows[..k];
  }

  /** Once a prefix of the rows fails to scan, the whole result is that failure, whatever follows. */
  lemma {:induction false} CollectStopsAtError<T>(rows: seq<seq<Cell>>, n: nat, item: seq<Cell> --> T, k: nat)
    requires forall cells :: |cells| == n ==> item.requires(cells)
    requires k <= |rows| && Collect(rows[..k], n, item).Err?
    ensures Collect(rows, n, item) == Collect(rows[..k], n, item)
    decreases |rows|
  {
    if k < |rows| {
      var init := rows[..|rows| - 1];
      assert init[..k] == rows[..k];
      CollectStopsAtError(init, n, item, k);
    } else {
      assert rows[..k] == rows;
    }
  }

  /** The result is an error exactly when some row has the wrong number of cells. */
  lemma {:induction false} CollectOk<T>(rows: seq<seq<Cell>>, n: nat, item: seq<Cell> --> T)
    requires forall cells :: |cells| == n ==> item.requires(cells)
    ensures Collect(rows, n, item).Ok? <==> forall k :: 0 <= k < |rows| ==> |rows[k]| == n
    decreases |rows|
  {
    if |rows| > 0 {
      var init := rows[..|rows| - 1];
      CollectOk(init, n, item);
      assert forall k :: 0 <= k < |init| ==> init[k] == rows[k];
    }
  }

  /** A successful result has one element per row, in row order. */
  lemma {:induction false} CollectItems<T>(rows: seq<seq<Cell>>, n: nat, item: seq<Cell> --> T)
    requires forall cells :: |cells| == n ==> item.requires(cells)
    requires Collect(rows, n, item).Ok?
    ensures |Collect(rows, n, item).value| == |rows|
    ensures forall k :: 0 <= k < |rows| ==> |rows[k]| == n && Collect(rows, n, item).value[k] == item(rows[k])
    decreases |rows|
  {
    if |rows| > 0 {
      var init := rows[..|rows| - 1];
      CollectItems(init, n, item);
      assert forall k :: 0 <= k < |init| ==> init[k] == rows[k];
    }
  }

  /** The first row with the wrong number of cells determines the error. */
  lemma {:induction false} CollectFirstError<T>(rows: seq<seq<Cell>>, n: nat, item: seq<Cell> --> T, k: nat)
    requires forall cells :: |cells| == n ==> item.requires(cells)
    requires k < |rows| && |rows[k]| != n
    requires forall m :: 0 <= m < k ==> |rows[m]| == n
    ensures Collect(rows, n, item) == Err(ScanArity(|rows[k]|, n))
    decreases |rows|
  {
    var init := rows[..|rows| - 1];
    if k < |rows| - 1 {
      assert forall m :: 0 <= m <= k ==> init[m] == rows[m];
      CollectFirstError(init, n, item, k);
    } else {
      assert forall m :: 0 <= m < k ==> init[m] == rows[m];
      CollectOk(init, n, item);
    }
  }

  /** The outcome of `All(table, dest)`: the query error first, then the destination check, then the rows. */
  function AllResult(db: Driver, ops: FloatOps, table: string, isSlicePointer: bool, fields: seq<Field>): (r: Result<seq<seq<Value>>, Error>)
    ensures db.query(AllSql(table)).Err? ==> r == Err(db.query(AllSql(table)).error)
    ensures db.query(AllSql(table)).Ok? && !isSlicePointer ==> r == Err(NotSlicePointer)
    ensures r.Ok? ==> isSlicePointer && db.query(AllSql(table)).Ok?
    ensures r.Ok? ==> |r.value| == |db.query(AllSql(table)).value|
  {
    match db.query(AllSql(table))
    case Err(e) => Err(e)
    case Ok(rows) => if !isSlicePointer then Err(NotSlicePointer) else AllRows(db, ops, fields, rows)
  }

  /** The `dest` of `All`: whether it is a pointer to a slice, the element struct's fields, and the slice it points to. */
  class Slice {
    const isSlicePointer: bool
    const fields: seq<Field>
    var items: seq<seq<Value>>

    constructor (isSlicePointer: bool, fields: seq<Field>, items: seq<seq<Value>>)
      ensures this.isSlicePointer == isSlicePointer && this.fields == fields && this.items == items
    {
      this.isSlicePointer := isSlicePointer;
      this.fields := fields;
      this.items := items;
    }
  }

  class DBClient {
    const db: Driver
    /** How the Go runtime converts floats, which the mapper relies on. */
    const floats: FloatOps

    /** `NewDBClient(db)`. */
    constructor (db: Driver, floats: FloatOps)
      ensures this.db == db && this.floats == floats
    {
      this.db := db;
      this.floats := floats;
    }

    /** `Find(table, id, dest)`: on success `dest` holds the row and its resolved relations; on error it is untouched. */
    method Find(table: string, id: Int64, dest: Record) returns (err: Option<Error>)
      requires dest.Valid()
      modifies dest.vals
      ensures dest.Valid()
      ensures match FindResult(db, floats, dest.fields, old(dest.vals[..]), table, id)
        case Ok(vals) => err.None? && dest.vals[..] == vals
        case Err(e) => err == Some(e) && dest.vals[..] == old(dest.vals[..])
      decreases dest.fields, 2
    {
      var query := "SELECT * FROM `" + table + "` WHERE id = ?";
      var row := db.queryRow(query, [GoInt(id)]);
      var columns := GetStructFields(dest.fields);
      var scanned := Scan(row, |columns|);
      if scanned.Err? {
        return Some(scanned.error);
      }
      dest.CopyValuesToStruct(scanned.value, columns, floats);
      HandleNestedRelations(dest);
      return None;
    }

    /** `handleNestedRelations(c, dest)`: each relation field, in order, is replaced by the related record when its lookup succeeds; the result is `Resolve` of the old values. */
    method HandleNestedRelations(dest: Record)
      requires dest.Valid()
      modifies dest.vals
      ensures dest.Valid()
      ensures dest.vals[..] == Overlay(old(dest.vals[..]), |dest.fields|, RelatedStep(db, floats, dest.fields))
      decreases dest.fields, 1
    {
      ghost var base := dest.vals[..];
      ghost var step := RelatedStep(db, floats, dest.fields);
      for i := 0 to |dest.fields|
        invariant dest.Valid()
        invariant dest.vals[..] == Overlay(base, i, step)
      {
        SetRelated(dest, i);
      }
    }

    /** One iteration of `handleNestedRelations`: field `i` is set to its related record when there is one. */
    method SetRelated(dest: Record, i: nat)
      requires dest.Valid() && i < |dest.fields|
      modifies dest.vals
      ensures dest.Valid()
      ensures dest.vals[..] == Settle(old(dest.vals[..]), i, RelatedStep(db, floats, dest.fields)(old(dest.vals[..]), i))
      decreases dest.fields, 0, 1
    {
      var related := FetchRelated(dest.fields, dest.vals[..], i);
      SettleTyped(dest.fields, dest.vals[..], i, related);
      if related.Some? {
        dest.vals[i] := related.value;
      }
    }

    /** One iteration of `handleNestedRelations`: `extractForeignKey`, then `Find` into a fresh struct of the field's type. */
    method FetchRelated(fields: seq<Field>, vals: seq<Value>, i: nat) returns (related: Option<Value>)
      requires Typed(fields, vals) && i < |fields|
      ensures related == Related(db, floats, fields, vals, i)
      decreases fields, 0, 0
    {
      var field := fields[i];
      var relTable, relID, ok := ExtractForeignKey(fields, vals, field);
      if ok && field.kind.StructKind? {
        var relStruct := new Record(field.kind.fields);
        var e := Find(relTable, relID, relStruct);
        if e.None? {
          return Some(StructVal(relStruct.vals[..]));
        }
      }
      return None;
    }

    /** `All(table, dest)`: on success the slice holds one element per row, in row order; on error it is untouched. */
    method All(table: string, dest: Slice) returns (err: Option<Error>)
      modifies dest
      ensures match AllResult(db, floats, table, dest.isSlicePointer, dest.fields)
        case Ok(items) => err.None? && dest.items == items
        case Err(e) => err == Some(e) && dest.items == old(dest.items)
    {
      var rows := db.query("SELECT * FROM `" + table + "`");
      if rows.Err? {
        return Some(rows.error);
      }
      if !dest.isSlicePointer {
        return Some(NotSlicePointer);
      }
      var columns := GetStructFields(dest.fields);
      var resultSlice: seq<seq<Value>> := [];
      for k := 0 to |rows.value|
        invariant dest.items == old(dest.items)
        invariant AllRows(db, floats, dest.fields, rows.value[..k]) == Ok(resultSlice)
      {
        AllRowsStep(db, floats, dest.fields, rows.value, k);
        var scanned := Scan(Ok(rows.value[k]), |columns|);
        if scanned.Err? {
          AllRowsStopsAtError(db, floats, dest.fields, rows.value, k + 1);
          return Some(scanned.error);
        }
        var item := ReadItem(dest.fields, scanned.value, columns);
        resultSlice := resultSlice + [item];
      }
      assert rows.value[..|rows.value|] == rows.value;
      dest.items := resultSlice;
      return None;
    }

    /** The body of `All`'s row loop once a row has scanned: a fresh struct filled from the cells, with its relations resolved. */
    method ReadItem(fields: seq<Field>, cells: seq<Cell>, columns: seq<string>) returns (vals: seq<Value>)
      requires columns == Columns(fields) && |columns| <= |cells|
      ensures vals == Item(db, floats, fields, cells)
    {
      var item := new Record(fields);
      item.CopyValuesToStruct(cells, columns, floats);
      HandleNestedRelations(item);
      vals := item.vals[..];
    }

    /** `Create(table, columns, values)`: one INSERT with a placeholder per column; returns the inserted id. */
    method Create(table: string, columns: seq<string>, values: seq<Cell>) returns (n: Int64, err: Option<Error>)
      ensures db.exec(InsertSql(table, columns), values).Err? ==>
        n == 0 && err == Some(db.exec(InsertSql(table, columns), values).error)
      ensures db.exec(InsertSql(table, columns), values).Ok? ==>
        Reply(n, err) == db.exec(InsertSql(table, columns), values).value.lastInsertId
    {
      var joined := StringJoin(columns, "`, `");
      var placeholders := GeneratePlaceholders(|columns|);
      var query := "INSERT INTO `" + table + "` (" + "`" + joined + "`" + ") VALUES " + placeholders;
      assert query == InsertSql(table, columns);
      var result := db.exec(query, values);
      if result.Err? {
        return 0, Some(result.error);
      }
      return result.value.lastInsertId.n, result.value.lastInsertId.err;
    }

    /** `Update(table, columns, values, id)`: one UPDATE whose arguments are the values followed by the id; returns the rows affected. */
    method Update(table: string, columns: seq<string>, values: seq<Cell>, id: Int64) returns (n: Int64, err: Option<Error>)
      ensures db.exec(UpdateSql(table, columns), values + [GoInt(id)]).Err? ==>
        n == 0 && err == Some(db.exec(UpdateSql(table, columns), values + [GoInt(id)]).error)
      ensures db.exec(UpdateSql(table, columns), values + [GoInt(id)]).Ok? ==>
        Reply(n, err) == db.exec(UpdateSql(table, columns), values + [GoInt(id)]).value.rowsAffected
    {
      var assignments := GenerateUpdateSetQuery(columns);
      var query := "UPDATE `" + table + "` SET " + assignments + " WHERE id = ?";
      var args := values + [GoInt(id)];
      var result := db.exec(query, args);
      if result.Err? {
        return 0, Some(result.error);
      }
      return result.value.rowsAffected.n, result.value.rowsAffected.err;
    }

    /** `Delete(table, id)`: one DELETE by id; returns the rows affected. */
    method Delete(table: string, id: Int64) returns (n: Int64, err: Option<Error>)
      ensures db.exec(DeleteSql(table), [GoInt(id)]).Err? ==>
        n == 0 && err == Some(db.exec(DeleteSql(table), [GoInt(id)]).error)
      ensures db.exec(DeleteSql(table), [GoInt(id)]).Ok? ==>
        Reply(n, err) == db.exec(DeleteSql(table), [GoInt(id)]).value.rowsAffected
    {
      var query := "DELETE FROM `" + table + "` WHERE id = ?";
      var result := db.exec(query, [GoInt(id)]);
      if result.Err? {
        return 0, Some(result.error);
      }
      return result.value.rowsAffected.n, result.value.rowsAffected.err;
    }
  }

  lemma AllRowsStep(db: Driver, ops: FloatOps, fields: seq<Field>, rows: seq<seq<Cell>>, k: nat)
    requires k < |rows|
    ensures AllRows(db, ops, fields, rows[..k + 1]) ==
      match AllRows(db, ops, fields, rows[..k])
      case Err(e) => Err(e)
      case Ok(items) =>
        if |rows[k]| == |Columns(fields)| then Ok(items + [Item(db, ops, fields, rows[k])])
        else Err(ScanArity(|rows[k]|, |Columns(fields)|))
  {
    CollectStep(rows, |Columns(fields)|, cells requires |Columns(fields)| <= |cells| => Item(db, ops, fields, cells), k);
  }

  /** Once a prefix of the rows fails to scan, `All` fails with that error whatever follows. */
  lemma AllRowsStopsAtError(db: Driver, ops: FloatOps, fields: seq<Field>, rows: seq<seq<Cell>>, k: nat)
    requires k <= |rows| && AllRows(db, ops, fields, rows[..k]).Err?
    ensures AllRows(db, ops, fields, rows) == AllRows(db, ops, fields, rows[..k])
  {
    CollectStopsAtError(rows, |Columns(fields)|, cells requires |Columns(fields)| <= |cells| => Item(db, ops, fields, cells), k);
  }

  /** Which relations are found, and what is fetched for them, depends only on the `int` fields. */
  lemma RelatedReadsIntFields(db: Driver, ops: FloatOps, fields: seq<Field>, vals: seq<Value>, vals': seq<Value>, i: nat)
    requires Typed(fields, vals) && Typed(fields, vals') && i < |fields|
    requires forall j :: 0 <= j < |fields| && fields[j].kind == IntKind ==> vals[j] == vals'[j]
    ensures Related(db, ops, fields, vals, i) == Related(db, ops, fields, vals', i)
  {
    ForeignKeyReadsIntFields(fields, vals, vals', fields[i]);
  }

  /** A field at or past `n`, or one that no step ever fills, keeps its old value. */
  lemma {:induction false} OverlayKeeps(vals: seq<Value>, n: nat, step: (seq<Value>, nat) -> Option<Value>, j: nat)
    requires n <= |vals| && j < |vals|
    requires j >= n || forall p :: step(p, j).None?
    ensures Overlay(vals, n, step)[j] == vals[j]
    decreases n
  {
    if n > 0 {
      OverlayKeeps(vals, n - 1, step, j);
    }
  }

  /** Field `j` is settled by step `j + 1`: later steps do not touch it. */
  lemma {:induction false} OverlaySettled(vals: seq<Value>, n: nat, step: (seq<Value>, nat) -> Option<Value>, j: nat)
    requires j < n <= |vals|
    ensures Overlay(vals, n, step)[j] == Overlay(vals, j + 1, step)[j]
    decreases n
  {
    if n > j + 1 {
      OverlaySettled(vals, n - 1, step, j);
    }
  }

  /**
   * `handleNestedRelations` overwrites field `j` with the related record
   * exactly when its lookup succeeds, and otherwise leaves it as it was; every
   * lookup sees the key fields as they were before the call.
   */
  lemma ResolveField(db: Driver, ops: FloatOps, fields: seq<Field>, vals: seq<Value>, j: nat)
    requires Typed(fields, vals) && j < |fields|
    ensures Resolve(db, ops, fields, vals)[j] ==
      match Related(db, ops, fields, vals, j)
      case None => vals[j]
      case Some(v) => v
  {
    var step := RelatedStep(db, ops, fields);
    var prev := Overlay(vals, j, step);
    RelatedStepTyped(db, ops, fields);
    OverlayTyped(fields, vals, j, step);
    forall k | 0 <= k < |fields| && fields[k].kind == IntKind
      ensures prev[k] == vals[k]
    {
      OverlayKeeps(vals, j, step, k);
    }
    RelatedReadsIntFields(db, ops, fields, prev, vals, j);
    OverlayKeeps(vals, j, step, j);
    OverlaySettled(vals, |fields|, step, j);
  }

  /**
   * A successful `Find` leaves each field of `dest` as the copy of its row
   * made it, except relation fields whose lookup succeeded, which hold the
   * related record.
   */
  lemma FindResultField(db: Driver, ops: FloatOps, fields: seq<Field>, vals: seq<Value>, table: string, id: Int64, j: nat)
    requires Typed(fields, vals) && j < |fields|
    requires FetchRow(db, fields, table, id).Ok?
    ensures var copied := CopyRow(fields, vals, FetchRow(db, fields, table, id).value, Columns(fields), ops);
      FindResult(db, ops, fields, vals, table, id).value[j] ==
        match Related(db, ops, fields, copied, j)
        case None => copied[j]
        case Some(v) => v
  {
    var copied := CopyRow(fields, vals, FetchRow(db, fields, table, id).value, Columns(fields), ops);
    ResolveField(db, ops, fields, copied, j);
  }

  /** When some row has the wrong number of cells, `All` reports the `Scan` error of the first such row. */
  lemma AllRowsFirstError(db: Driver, ops: FloatOps, fields: seq<Field>, rows: seq<seq<Cell>>, k: nat)
    requires k < |rows| && |rows[k]| != |Columns(fields)|
    requires forall m :: 0 <= m < k ==> |rows[m]| == |Columns(fields)|
    ensures AllRows(db, ops, fields, rows) == Err(ScanArity(|rows[k]|, |Columns(fields)|))
  {
    CollectFirstError(rows, |Columns(fields)|, cells requires |Columns(fields)| <= |cells| => Item(db, ops, fields, cells), k);
  }
}
