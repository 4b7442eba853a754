/**
 * `copyValuesToStruct`: writes the cells of one row into the struct fields
 * whose `db` tag equals the cell's column, coercing each cell by the field's
 * kind and leaving a field untouched whenever a cell cannot be converted.
 */
module Coerce {
  import opened Wrappers
  import opened Strconv
  import opened Schema

  /**
   * The floating-point conversions of the Go runtime, which the model does
   * not interpret: `int64(f)`, `strconv.ParseFloat(s, 64)` (None on error),
   * and the `%v` rendering of a float.
   */
  datatype FloatOps = FloatOps(
    truncate: Float64 -> Int64,
    parse: string -> Option<Float64>,
    format: Float64 -> string)

  /**
   * A string field: bytes become their text, a string itself, nil "", a
   * native integer its decimal rendering (which `Atoi` reads back), anything
   * else its `%v` rendering.
   */
  function CoerceString(cell: Cell, ops: FloatOps): (r: string)
    ensures cell.Bytes? ==> r == cell.b
    ensures cell.Str? ==> r == cell.s
    ensures cell.Nil? ==> r == ""
    ensures cell.GoInt? || cell.GoInt64? ==> Atoi(r) == Some(cell.i)
  {
    match cell
    case Bytes(b) => b
    case Str(s) => s
    case Nil => ""
    case GoInt(i) => AtoiItoa(i); Itoa(i)
    case GoInt64(i) => AtoiItoa(i); Itoa(i)
    case GoFloat64(f) => ops.format(f)
    case Other(rendered) => rendered
  }

  /**
   * An int or int64 field: only a native int, int64 or float64, or bytes
   * that `Atoi` accepts, change it; accepted bytes store `Atoi`'s value, and
   * nil, strings and rejected bytes leave `prev` in place.
   */
  function CoerceInt(prev: Int64, cell: Cell, ops: FloatOps): (r: Int64)
    ensures r != prev ==> cell.GoInt? || cell.GoInt64? || cell.GoFloat64? || (cell.Bytes? && Atoi(cell.b).Some?)
    ensures cell.GoInt? || cell.GoInt64? ==> r == cell.i
    ensures cell.Bytes? && Atoi(cell.b).Some? ==> r == Atoi(cell.b).value
    ensures cell.GoFloat64? ==> r == ops.truncate(cell.f)
  {
    match cell
    case GoInt(i) => i
    case GoInt64(i) => i
    case GoFloat64(f) => ops.truncate(f)
    case Bytes(b) => (match Atoi(b) case Some(n) => n case None => prev)
    case _ => prev
  }

  /**
   * A float64 field: only a native float, or bytes that `ParseFloat`
   * accepts, change it; bytes it rejects leave `prev` in place.
   */
  function CoerceFloat(prev: Float64, cell: Cell, ops: FloatOps): (r: Float64)
    ensures r != prev ==> cell.GoFloat64? || (cell.Bytes? && ops.parse(cell.b).Some?)
    ensures cell.GoFloat64? ==> r == cell.f
    ensures cell.Bytes? && ops.parse(cell.b).None? ==> r == prev
    ensures cell.Bytes? && ops.parse(cell.b).Some? ==> r == ops.parse(cell.b).value
  {
    match cell
    case GoFloat64(f) => f
    case Bytes(b) => (match ops.parse(b) case Some(x) => x case None => prev)
    case _ => prev
  }

  /** The first declared field whose `db` tag equals `col`: the only one `copyValuesToStruct` writes. */
  function FirstMatch(fields: seq<Field>, col: string): (r: Option<nat>)
    ensures r.Some? ==> r.value < |fields| && fields[r.value].db == col
    ensures r.Some? ==> forall k :: 0 <= k < r.value ==> fields[k].db != col
    ensures r.None? <==> forall k :: 0 <= k < |fields| ==> fields[k].db != col
  {
    if |fields| == 0 then None
    else if fields[0].db == col then Some(0)
    else match FirstMatch(fields[1..], col)
      case None => None
      case Some(j) => Some(j + 1)
  }

  /** The new value of a matched field of kind `kind` holding `v`, given the cell for column `col`. */
  function CopyCell(kind: Kind, v: Value, cell: Cell, col: string, ops: FloatOps): (r: Value)
    requires HasKind(v, kind)
    ensures HasKind(r, kind)
    decreases kind, 0
  {
    match kind
    case StringKind => StrVal(CoerceString(cell, ops))
    case IntKind => IntVal(CoerceInt(v.i, cell, ops))
    case Int64Kind => IntVal(CoerceInt(v.i, cell, ops))
    case Float64Kind => FloatVal(CoerceFloat(v.f, cell, ops))
    case StructKind(fs) => StructVal(CopyRow(fs, v.vals, [cell], [col], ops))
    case OtherKind => v
  }

  /**
   * The field values after `copyValuesToStruct(cells, dest, columns)` on a
   * struct holding `vals`: columns are taken in order, and column `i` updates
   * the first field whose `db` tag equals it, with cell `i`.
   */
  function CopyRow(fields: seq<Field>, vals: seq<Value>, cells: seq<Cell>, columns: seq<string>, ops: FloatOps): (r: seq<Value>)
    requires Typed(fields, vals) && |columns| <= |cells|
    ensures Typed(fields, r)
    decreases fields, |columns| + 1
  {
    if |columns| == 0 then vals
    else
      var n := |columns| - 1;
      var prev := CopyRow(fields, vals, cells, columns[..n], ops);
      match FirstMatch(fields, columns[n])
      case None => prev
      case Some(j) => prev[j := CopyCell(fields[j].kind, prev[j], cells[n], columns[n], ops)]
  }

  /** A struct the mapper fills in place: fixed field descriptors and an array of field values. */
  class Record {
    const fields: seq<Field>
    const vals: array<Value>

    ghost predicate Valid()
      reads vals
    {
      vals.Length == |fields| && Typed(fields, vals[..])
    }

    /** `reflect.New(type)`: every field at its zero value. */
    constructor (fields: seq<Field>)
      ensures Valid() && fresh(vals)
      ensures this.fields == fields && vals[..] == ZeroVals(fields)
    {
      this.fields := fields;
      vals := new Value[|fields|](j requires 0 <= j < |fields| => Zero(fields[j].kind));
    }

    /** `copyValuesToStruct(cells, this, columns)`: for each column, search the fields for its `db` tag and write the first hit. */
    method CopyValuesToStruct(cells: seq<Cell>, columns: seq<string>, ops: FloatOps)
      requires Valid() && |columns| <= |cells|
      modifies vals
      ensures Valid()
      ensures vals[..] == CopyRow(fields, old(vals[..]), cells, columns, ops)
    {
      for i := 0 to |columns|
        invariant Valid()
        invariant vals[..] == CopyRow(fields, old(vals[..]), cells, columns[..i], ops)
      {
        var col := columns[i];
        ghost var prev := vals[..];
        assert columns[..i + 1][..i] == columns[..i] && columns[..i + 1][i] == col;
        var j := 0;
        while j < |fields|
          invariant 0 <= j <= |fields|
          invariant forall k :: 0 <= k < j ==> fields[k].db != col
          invariant vals[..] == prev
        {
          if fields[j].db == col {
            assert FirstMatch(fields, col) == Some(j);
            vals[j] := CopyCell(fields[j].kind, vals[j], cells[i], col, ops);
            break;
          }
          j := j + 1;
        }
      }
      assert columns[..|columns|] == columns;
    }
  }

  /** A field that no column's first match selects keeps its value. */
  lemma {:induction false} CopyUntouched(fields: seq<Field>, vals: seq<Value>, cells: seq<Cell>, columns: seq<string>, ops: FloatOps, j: nat)
    requires Typed(fields, vals) && |columns| <= |cells| && j < |fields|
    requires forall i {:trigger FirstMatch(fields, columns[i])} :: 0 <= i < |columns| ==> FirstMatch(fields, columns[i]) != Some(j)
    ensures CopyRow(fields, vals, cells, columns, ops)[j] == vals[j]
    decreases |columns|
  {
    if |columns| > 0 {
      var n := |columns| - 1;
      CopyRowSkipsLast(fields, vals, cells, columns, ops, j);
      forall i | 0 <= i < n
        ensures FirstMatch(fields, columns[..n][i]) != Some(j)
      {
        assert columns[..n][i] == columns[i];
      }
      CopyUntouched(fields, vals, cells, columns[..n], ops, j);
    }
  }

  /**
   * Fields whose `db` tag equals no listed column, and fields that share
   * their `db` tag with an earlier field, keep their prior values.
   */
  lemma CopyKeepsUnmatched(fields: seq<Field>, vals: seq<Value>, cells: seq<Cell>, columns: seq<string>, ops: FloatOps, j: nat)
    requires Typed(fields, vals) && |columns| <= |cells| && j < |fields|
    requires fields[j].db !in columns || exists k :: 0 <= k < j && fields[k].db == fields[j].db
    ensures CopyRow(fields, vals, cells, columns, ops)[j] == vals[j]
  {
    forall i | 0 <= i < |columns|
      ensures FirstMatch(fields, columns[i]) != Some(j)
    {
    }
    CopyUntouched(fields, vals, cells, columns, ops, j);
  }

  /** A field named only through `gorm:"column:..."` is listed by `getStructFields` but never written from that list. */
  lemma GormOnlyFieldNeverWritten(fields: seq<Field>, vals: seq<Value>, cells: seq<Cell>, ops: FloatOps, j: nat)
    requires Typed(fields, vals) && |Columns(fields)| <= |cells| && j < |fields|
    requires fields[j].db == ""
    ensures CopyRow(fields, vals, cells, Columns(fields), ops)[j] == vals[j]
  {
    CopyKeepsUnmatched(fields, vals, cells, Columns(fields), ops, j);
  }

  /**
   * The last column naming field `j`'s tag decides it: the field ends as
   * cell `i` coerced from the value the earlier columns left, whatever
   * duplicates of that column come before `i`.
   */
  lemma {:induction false} CopyWritesFirstMatch(fields: seq<Field>, vals: seq<Value>, cells: seq<Cell>, columns: seq<string>, ops: FloatOps, i: nat, j: nat)
    requires Typed(fields, vals) && |columns| <= |cells|
    requires i < |columns| && FirstMatch(fields, columns[i]) == Some(j)
    requires forall i' {:trigger FirstMatch(fields, columns[i'])} :: i < i' < |columns| ==> FirstMatch(fields, columns[i']) != Some(j)
    ensures CopyRow(fields, vals, cells, columns, ops)[j] ==
      CopyCell(fields[j].kind, CopyRow(fields, vals, cells, columns[..i], ops)[j], cells[i], columns[i], ops)
    decreases |columns|
  {
    var n := |columns| - 1;
    var pre := columns[..n];
    if i < n {
      CopyRowSkipsLast(fields, vals, cells, columns, ops, j);
      forall i' | i < i' < n
        ensures FirstMatch(fields, pre[i']) != Some(j)
      {
        assert pre[i'] == columns[i'];
      }
      assert pre[..i] == columns[..i];
      CopyWritesFirstMatch(fields, vals, cells, pre, ops, i, j);
    } else {
      assert pre == columns[..i];
    }
  }

  /** A last column whose first match is not field `j` leaves field `j` as the earlier columns left it. */
  lemma CopyRowSkipsLast(fields: seq<Field>, vals: seq<Value>, cells: seq<Cell>, columns: seq<string>, ops: FloatOps, j: nat)
    requires Typed(fields, vals) && 0 < |columns| <= |cells| && j < |fields|
    requires FirstMatch(fields, columns[|columns| - 1]) != Some(j)
    ensures CopyRow(fields, vals, cells, columns, ops)[j] == CopyRow(fields, vals, cells, columns[..|columns| - 1], ops)[j]
  {
  }

  /**
   * Two fields tagged `db:"x"` and a row with two `x` columns holding 1 and
   * 2: the first field receives both cells and keeps the later one, the
   * second is never written.
   */
  lemma DuplicateColumnsLastWins(ops: FloatOps)
    ensures var fs := [Field("A", "x", "", IntKind, "int"), Field("B", "x", "", IntKind, "int")];
      CopyRow(fs, [IntVal(0), IntVal(0)], [GoInt(1), GoInt(2)], ["x", "x"], ops) == [IntVal(2), IntVal(0)]
  {
    var fs := [Field("A", "x", "", IntKind, "int"), Field("B", "x", "", IntKind, "int")];
    var cols := ["x", "x"];
    assert cols[..1][..0] == [] && cols[..1] == ["x"];
    assert FirstMatch(fs, "x") == Some(0);
  }

  /** A nested struct field is filled by copying the single cell into the nested field whose `db` tag is the same column. */
  lemma CopyIntoNested(fs: seq<Field>, nested: seq<Value>, cell: Cell, col: string, ops: FloatOps)
    requires Typed(fs, nested)
    ensures FirstMatch(fs, col).None? ==> CopyCell(StructKind(fs), StructVal(nested), cell, col, ops) == StructVal(nested)
    ensures FirstMatch(fs, col).Some? ==>
      var k := FirstMatch(fs, col).value;
      CopyCell(StructKind(fs), StructVal(nested), cell, col, ops) == StructVal(nested[k := CopyCell(fs[k].kind, nested[k], cell, col, ops)])
  {
    assert [col][..0] == [];
    assert CopyRow(fs, nested, [cell], [], ops) == nested;
  }

  /** The bytes of an integer's decimal rendering coerce to that integer, e.g. "42" to 42, whatever the field held before. */
  lemma IntFromRenderedBytes(prev: Int64, n: Int64, ops: FloatOps)
    ensures CoerceInt(prev, Bytes(Itoa(n)), ops) == n
  {
    AtoiItoa(n);
  }

  /** An integer cell written to a string field reads back as the same integer when coerced into an int field. */
  lemma StringThenIntRoundTrip(prev: Int64, n: Int64, ops: FloatOps)
    ensures CoerceInt(prev, Bytes(CoerceString(GoInt(n), ops)), ops) == n
    ensures CoerceInt(prev, Bytes(CoerceString(GoInt64(n), ops)), ops) == n
  {
    AtoiItoa(n);
  }

  /**
   * The nested-struct branch as written: the inner call receives the cell
   * itself where it expects a pointer to it, so the inner type assertion
   * fails (None: a panic) as soon as a nested field carries the column's
   * `db` tag; with no such field nothing is written.
   */
  function NestedCopyAsWritten(fs: seq<Field>, nested: seq<Value>, col: string): (r: Option<seq<Value>>)
    ensures r.None? <==> exists k :: 0 <= k < |fs| && fs[k].db == col
    ensures r.Some? ==> r.value == nested
  {
    match FirstMatch(fs, col)
    case Some(_) => None
    case None => Some(nested)
  }

  /** A struct field `Profile` tagged `db:"name"` whose own field `Name` is tagged `db:"name"`: the written code panics where a copy was meant. */
  lemma NestedCopyPanics(ops: FloatOps)
    ensures var fs := [Field("Name", "name", "", StringKind, "string")];
      NestedCopyAsWritten(fs, [StrVal("")], "name").None? &&
      CopyCell(StructKind(fs), StructVal([StrVal("")]), Bytes("alice"), "name", ops) == StructVal([StrVal("alice")])
  {
    var fs := [Field("Name", "name", "", StringKind, "string")];
    CopyIntoNested(fs, [StrVal("")], Bytes("alice"), "name", ops);
  }
}
