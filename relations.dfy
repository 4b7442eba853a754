/**
 * `extractForeignKey`: recognises a belongs-to relation field by a
 * `foreignKey:<Field>` part in its `gorm` tag, and reads the key from the
 * named sibling field when that field has Go kind `int`.
 */
module Relations {
  import opened Wrappers
  import opened Strs
  import opened Strconv
  import opened Schema

  const ForeignKeyPrefix: string := "foreignKey:"

  /** `FieldByName`: the index of the field declared with Go name `name`. */
  function FieldByName(fields: seq<Field>, name: string): (r: Option<nat>)
    ensures r.Some? ==> r.value < |fields| && fields[r.value].name == name
    ensures r.Some? ==> forall k :: 0 <= k < r.value ==> fields[k].name != name
    ensures r.None? <==> forall k :: 0 <= k < |fields| ==> fields[k].name != name
  {
    if |fields| == 0 then None
    else if fields[0].name == name then Some(0)
    else match FieldByName(fields[1..], name)
      case None => None
      case Some(j) => Some(j + 1)
  }

  /** The value of field `name` when it exists and has kind exactly `int` (an `int64` key is not accepted). */
  function IntField(fields: seq<Field>, vals: seq<Value>, name: string): Option<Int64>
    requires Typed(fields, vals)
  {
    match FieldByName(fields, name)
    case None => None
    case Some(j) => if fields[j].kind == IntKind then Some(vals[j].i) else None
  }

  /** A tag part names a usable key: it starts with `foreignKey:` and the rest names an int field. */
  predicate Qualifies(fields: seq<Field>, vals: seq<Value>, part: string)
    requires Typed(fields, vals)
  {
    HasPrefix(part, ForeignKeyPrefix) && IntField(fields, vals, TrimPrefix(part, ForeignKeyPrefix)).Some?
  }

  /** The key read through the first qualifying part; later parts are not consulted. */
  function KeyValue(fields: seq<Field>, vals: seq<Value>, parts: seq<string>): (r: Option<Int64>)
    requires Typed(fields, vals)
    ensures r.None? <==> forall m :: 0 <= m < |parts| ==> !Qualifies(fields, vals, parts[m])
  {
    if |parts| == 0 then None
    else if Qualifies(fields, vals, parts[0]) then IntField(fields, vals, TrimPrefix(parts[0], ForeignKeyPrefix))
    else KeyValue(fields, vals, parts[1..])
  }

  /** The related table and key that `extractForeignKey` reports for relation field `f` of a struct holding `vals`; None for `ok == false`. */
  function ForeignKey(fields: seq<Field>, vals: seq<Value>, f: Field): (r: Option<(string, Int64)>)
    requires Typed(fields, vals)
    ensures r.Some? ==> r.value.0 == ToLower(f.typeName) + "s"
    ensures !Contains(f.gorm, ForeignKeyPrefix) ==> r.None?
  {
    if Contains(f.gorm, ForeignKeyPrefix) then
      match KeyValue(fields, vals, Split(f.gorm, ';'))
      case None => None
      case Some(id) => Some((ToLower(f.typeName) + "s", id))
    else None
  }

  /** `extractForeignKey(v, f)`: scans the `;`-separated parts and returns at the first usable one, else `("", 0, false)`. */
  method ExtractForeignKey(fields: seq<Field>, vals: seq<Value>, f: Field) returns (table: string, id: int, ok: bool)
    requires Typed(fields, vals)
    ensures ok <==> ForeignKey(fields, vals, f).Some?
    ensures ok ==> (table, id) == ForeignKey(fields, vals, f).value
    ensures !ok ==> table == "" && id == 0
  {
    if Contains(f.gorm, ForeignKeyPrefix) {
      var parts := Split(f.gorm, ';');
      for k := 0 to |parts|
        invariant KeyValue(fields, vals, parts[k..]) == KeyValue(fields, vals, parts)
      {
        assert parts[k..][1..] == parts[k + 1..];
        if HasPrefix(parts[k], ForeignKeyPrefix) {
          var relKey := TrimPrefix(parts[k], ForeignKeyPrefix);
          var j := FieldByName(fields, relKey);
          if j.Some? && fields[j.value].kind == IntKind {
            return ToLower(f.typeName) + "s", vals[j.value].i, true;
          }
        }
      }
    }
    return "", 0, false;
  }

  /**
   * The key comes from the first part that qualifies, and every earlier part
   * either lacks the prefix or names a missing or non-`int` field.
   */
  lemma {:induction false} KeyValueFirst(fields: seq<Field>, vals: seq<Value>, parts: seq<string>, k: nat)
    requires Typed(fields, vals)
    requires k < |parts| && Qualifies(fields, vals, parts[k])
    requires forall m :: 0 <= m < k ==> !Qualifies(fields, vals, parts[m])
    ensures KeyValue(fields, vals, parts) == IntField(fields, vals, TrimPrefix(parts[k], ForeignKeyPrefix))
    decreases k
  {
    if k > 0 {
      assert forall m :: 0 <= m < k - 1 ==> parts[1..][m] == parts[m + 1];
      KeyValueFirst(fields, vals, parts[1..], k - 1);
    }
  }

  /** The `Contains` guard is implied by any part that starts with `foreignKey:`, so the key found is exactly the first qualifying part's. */
  lemma ForeignKeyFirstPart(fields: seq<Field>, vals: seq<Value>, f: Field, k: nat)
    requires Typed(fields, vals)
    requires k < |Split(f.gorm, ';')| && Qualifies(fields, vals, Split(f.gorm, ';')[k])
    requires forall m :: 0 <= m < k ==> !Qualifies(fields, vals, Split(f.gorm, ';')[m])
    ensures ForeignKey(fields, vals, f) ==
      Some((ToLower(f.typeName) + "s", IntField(fields, vals, TrimPrefix(Split(f.gorm, ';')[k], ForeignKeyPrefix)).value))
  {
    var part := Split(f.gorm, ';')[k];
    SplitPartContained(f.gorm, ';', k);
    assert part[..|ForeignKeyPrefix|] == ForeignKeyPrefix;
    ContainsAt(part, ForeignKeyPrefix, 0);
    ContainsTransitive(f.gorm, part, ForeignKeyPrefix);
    KeyValueFirst(fields, vals, Split(f.gorm, ';'), k);
  }

  /**
   * A key field declared `int64` is never used as a foreign key: the part
   * naming it never qualifies, so a tag whose other parts do not qualify
   * either yields no relation, wherever that part stands in the tag.
   */
  lemma Int64KeyIgnored(fields: seq<Field>, vals: seq<Value>, f: Field, key: string)
    requires Typed(fields, vals)
    requires FieldByName(fields, key).Some? && fields[FieldByName(fields, key).value].kind == Int64Kind
    ensures !Qualifies(fields, vals, ForeignKeyPrefix + key)
    ensures (forall m :: 0 <= m < |Split(f.gorm, ';')| ==>
        Split(f.gorm, ';')[m] == ForeignKeyPrefix + key || !Qualifies(fields, vals, Split(f.gorm, ';')[m])) ==>
      ForeignKey(fields, vals, f).None?
  {
    var part := ForeignKeyPrefix + key;
    assert part[..|ForeignKeyPrefix|] == ForeignKeyPrefix;
    assert TrimPrefix(part, ForeignKeyPrefix) == key;
  }

  /** Whether a relation is found depends only on the `int` fields, so rewriting struct fields cannot change it. */
  lemma ForeignKeyReadsIntFields(fields: seq<Field>, vals: seq<Value>, vals': seq<Value>, f: Field)
    requires Typed(fields, vals) && Typed(fields, vals')
    requires forall j :: 0 <= j < |fields| && fields[j].kind == IntKind ==> vals[j] == vals'[j]
    ensures ForeignKey(fields, vals, f) == ForeignKey(fields, vals', f)
  {
    KeyValueSame(fields, vals, vals', Split(f.gorm, ';'));
  }

  lemma {:induction false} KeyValueSame(fields: seq<Field>, vals: seq<Value>, vals': seq<Value>, parts: seq<string>)
    requires Typed(fields, vals) && Typed(fields, vals')
    requires forall j :: 0 <= j < |fields| && fields[j].kind == IntKind ==> vals[j] == vals'[j]
    ensures KeyValue(fields, vals, parts) == KeyValue(fields, vals', parts)
    decreases |parts|
  {
    if |parts| > 0 {
      KeyValueSame(fields, vals, vals', parts[1..]);
    }
  }
}
