/**
 * What the mapper reads off a Go struct type through reflection: one
 * descriptor per field (its Go name, its `db` and `gorm` tags, its kind and
 * the name of its type), the values such a struct holds, the untyped cells a
 * database driver hands back, and `getStructFields`, which turns the field
 * tags into the ordered column list.
 */
module Schema {
  import opened Wrappers
  import opened Strs
  import opened Strconv

  /** A Go `float64`, kept as its IEEE-754 bit pattern: the model never does arithmetic on it. */
  datatype Float64 = Float64(bits: bv64)

  /**
   * The reflect kind of a field, as far as the mapper distinguishes kinds. A
   * struct kind carries the descriptors of the nested struct's own fields;
   * Go forbids a struct from containing itself by value, so this is a finite tree.
   */
  datatype Kind =
    | StringKind
    | IntKind
    | Int64Kind
    | Float64Kind
    | StructKind(fields: seq<Field>)
    | OtherKind

  /**
   * One struct field: its Go name, the value of `Tag.Get("db")` and of
   * `Tag.Get("gorm")` ("" when the tag is absent), its kind, and
   * `Type.Name()` of its type.
   */
  datatype Field = Field(name: string, db: string, gorm: string, kind: Kind, typeName: string)

  /** The value a struct field holds. */
  datatype Value =
    | StrVal(s: string)
    | IntVal(i: Int64)
    | FloatVal(f: Float64)
    | StructVal(vals: seq<Value>)
    | OtherVal

  /** A driver cell, by its dynamic Go type: `[]uint8`, `string`, `int`, `int64`, `float64`, `nil`, or anything else (with its `%v` rendering). */
  datatype Cell =
    | Bytes(b: string)
    | Str(s: string)
    | GoInt(i: Int64)
    | GoInt64(i: Int64)
    | GoFloat64(f: Float64)
    | Nil
    | Other(rendered: string)

  /** `v` is a value of a field of kind `k`, the guarantee Go's type system gives every field. */
  predicate HasKind(v: Value, k: Kind)
    decreases k
  {
    match k
    case StringKind => v.StrVal?
    case IntKind => v.IntVal?
    case Int64Kind => v.IntVal?
    case Float64Kind => v.FloatVal?
    case StructKind(fs) =>
      v.StructVal? && |v.vals| == |fs| && forall j :: 0 <= j < |fs| ==> HasKind(v.vals[j], fs[j].kind)
    case OtherKind => v.OtherVal?
  }

  /** `vals` are the field values of a struct whose fields are `fields`. */
  predicate Typed(fields: seq<Field>, vals: seq<Value>) {
    |vals| == |fields| && forall j :: 0 <= j < |fields| ==> HasKind(vals[j], fields[j].kind)
  }

  /** The zero value of a kind, what `reflect.New` starts a field at. */
  function Zero(k: Kind): (v: Value)
    ensures HasKind(v, k)
    decreases k
  {
    match k
    case StringKind => StrVal("")
    case IntKind => IntVal(0)
    case Int64Kind => IntVal(0)
    case Float64Kind => FloatVal(Float64(0))
    case StructKind(fs) => StructVal(seq(|fs|, j requires 0 <= j < |fs| => Zero(fs[j].kind)))
    case OtherKind => OtherVal
  }

  /** The field values of a freshly allocated struct. */
  function ZeroVals(fields: seq<Field>): (vals: seq<Value>)
    ensures Typed(fields, vals)
  {
    seq(|fields|, j requires 0 <= j < |fields| => Zero(fields[j].kind))
  }

  /** The name after the first `;`-part of a gorm tag that starts with `column:`, or "" when no part does. */
  function ColumnPart(parts: seq<string>): string {
    if |parts| == 0 then ""
    else if HasPrefix(parts[0], "column:") then TrimPrefix(parts[0], "column:")
    else ColumnPart(parts[1..])
  }

  /** The column a gorm tag names, as `getStructFields` looks it up. */
  function GormColumn(gorm: string): string {
    if Contains(gorm, "column:") then ColumnPart(Split(gorm, ';')) else ""
  }

  /** The persisted name of a field: its `db` tag, else its gorm `column:`, else "" (skipped). */
  function ColumnName(f: Field): string {
    if f.db != "" then f.db else GormColumn(f.gorm)
  }

  /**
   * The column list `getStructFields` returns, as a specification: at most
   * one non-empty name per field, every field that has a name listed, and
   * nothing listed that is not some field's name.
   */
  function Columns(fields: seq<Field>): (r: seq<string>)
    ensures |r| <= |fields|
    ensures forall k :: 0 <= k < |r| ==> r[k] != ""
  {
    if |fields| == 0 then []
    else
      var pre := fields[..|fields| - 1];
      var name := ColumnName(fields[|fields| - 1]);
      Columns(pre) + (if name != "" then [name] else [])
  }

  /** Every field that has a name has it listed, and every listed name is some field's name. */
  lemma {:induction false} ColumnsMembers(fields: seq<Field>)
    ensures forall j :: 0 <= j < |fields| && ColumnName(fields[j]) != "" ==> ColumnName(fields[j]) in Columns(fields)
    ensures forall c :: c in Columns(fields) ==> exists j :: 0 <= j < |fields| && ColumnName(fields[j]) == c
    decreases |fields|
  {
    if |fields| > 0 {
      var pre := fields[..|fields| - 1];
      ColumnsMembers(pre);
      assert forall j :: 0 <= j < |pre| ==> pre[j] == fields[j];
    }
  }

  /** `getStructFields`: one pass over the fields in declaration order. */
  method GetStructFields(fields: seq<Field>) returns (columns: seq<string>)
    ensures columns == Columns(fields)
  {
    columns := [];
    for i := 0 to |fields|
      invariant columns == Columns(fields[..i])
    {
      var field := fields[i];
      var column := field.db;
      if column == "" {
        var gormTag := field.gorm;
        if Contains(gormTag, "column:") {
          var parts := Split(gormTag, ';');
          var k := 0;
          while k < |parts|
            invariant 0 <= k <= |parts|
            invariant column == "" && ColumnPart(parts[k..]) == ColumnPart(parts)
          {
            if HasPrefix(parts[k], "column:") {
              column := TrimPrefix(parts[k], "column:");
              break;
            }
            assert parts[k..][1..] == parts[k + 1..];
            k := k + 1;
          }
        }
      }
      assert column == ColumnName(fields[i]);
      if column != "" {
        columns := columns + [column];
      }
      assert fields[..i + 1][..i] == fields[..i];
    }
    assert fields[..|fields|] == fields;
  }

  /** `ColumnPart` is the first part with the prefix, stripped, whatever comes after it. */
  lemma {:induction false} ColumnPartFirst(parts: seq<string>, k: nat)
    requires k < |parts| && HasPrefix(parts[k], "column:")
    requires forall m :: 0 <= m < k ==> !HasPrefix(parts[m], "column:")
    ensures ColumnPart(parts) == TrimPrefix(parts[k], "column:")
    decreases k
  {
    if k > 0 {
      ColumnPartFirst(parts[1..], k - 1);
    }
  }

  lemma {:induction false} ColumnPartNone(parts: seq<string>)
    requires forall m :: 0 <= m < |parts| ==> !HasPrefix(parts[m], "column:")
    ensures ColumnPart(parts) == ""
    decreases |parts|
  {
    if |parts| > 0 {
      ColumnPartNone(parts[1..]);
    }
  }

  /**
   * Without a `db` tag, the name is taken from the first `;`-separated part
   * of the gorm tag that starts with `column:`, prefix stripped; with no such
   * part the field has no name. (So the `Contains` guard never changes the outcome.)
   */
  lemma GormColumnIsFirstColumnPart(f: Field, k: nat)
    requires f.db == ""
    requires k < |Split(f.gorm, ';')| && HasPrefix(Split(f.gorm, ';')[k], "column:")
    requires forall m :: 0 <= m < k ==> !HasPrefix(Split(f.gorm, ';')[m], "column:")
    ensures ColumnName(f) == TrimPrefix(Split(f.gorm, ';')[k], "column:")
  {
    var parts := Split(f.gorm, ';');
    SplitPartContained(f.gorm, ';', k);
    ContainsAt(parts[k], "column:", 0);
    ContainsTransitive(f.gorm, parts[k], "column:");
    ColumnPartFirst(parts, k);
  }

  lemma GormColumnAbsent(f: Field)
    requires f.db == ""
    requires forall m :: 0 <= m < |Split(f.gorm, ';')| ==> !HasPrefix(Split(f.gorm, ';')[m], "column:")
    ensures ColumnName(f) == ""
  {
    ColumnPartNone(Split(f.gorm, ';'));
  }

  /** The column list of a concatenation of field lists is the concatenation of their column lists. */
  lemma {:induction false} ColumnsAppend(a: seq<Field>, b: seq<Field>)
    ensures Columns(a + b) == Columns(a) + Columns(b)
    decreases |b|
  {
    if |b| == 0 {
      assert a + b == a;
    } else {
      assert (a + b)[..|a + b| - 1] == a + b[..|b| - 1];
      ColumnsAppend(a, b[..|b| - 1]);
    }
  }

  /**
   * Declaration order: a field with a name contributes it right after the
   * columns of the fields declared before it; a field without one contributes nothing.
   */
  lemma ColumnsPosition(fields: seq<Field>, j: nat)
    requires j < |fields|
    ensures ColumnName(fields[j]) != "" ==>
      |Columns(fields[..j])| < |Columns(fields)| && Columns(fields)[|Columns(fields[..j])|] == ColumnName(fields[j])
    ensures ColumnName(fields[j]) == "" ==> Columns(fields[..j + 1]) == Columns(fields[..j])
  {
    assert fields == fields[..j + 1] + fields[j + 1..];
    ColumnsAppend(fields[..j + 1], fields[j + 1..]);
    assert fields[..j + 1][..j] == fields[..j];
  }
}
