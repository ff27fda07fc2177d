/**
 * The bulk traversals of the root package (dataq.go): `GetVars`, the list of
 * the paths of all exported scalar fields, and `GetFlatData`, those paths
 * mapped to their values. Both descend struct and pointer fields, joining
 * names with ".", and abort on a nil pointer.
 */
module LegacyBulk {
  import opened Wrappers
  import opened Text
  import opened Values
  import opened Dataq
  import opened Legacy

  /** The inputs on which the traversals do not panic: every field name they check is non-empty. */
  ghost predicate BulkNoPanic(source: Val)
    decreases source, 1
  {
    var obj := if source.Ptr? then source.target else Some(source);
    obj.Some? && obj.value.Rec? ==> FieldsOk(obj.value)
  }

  ghost predicate FieldsOk(rec: Val)
    requires rec.Rec?
    decreases rec, 0
  {
    forall i :: 0 <= i < |rec.fields| ==> FieldOk(rec.fields[i].name, rec.fields[i].value)
  }

  ghost predicate FieldOk(name: string, f: Val)
    decreases f, 3
  {
    name != "" && (Exported(name) && (f.Rec? || f.Ptr?) ==> BulkNoPanic(f))
  }

  /** Each name of `names`, prefixed with `prefix`. */
  function Prefixed(prefix: string, names: seq<string>): (r: seq<string>)
    ensures |r| == |names| && forall j :: 0 <= j < |names| ==> r[j] == prefix + names[j]
  {
    if names == [] then [] else [prefix + names[0]] + Prefixed(prefix, names[1..])
  }

  /**
   * The specification of `GetVars`: a struct (after one dereference) is
   * listed field by field; anything else, a nil pointer included, is an error.
   */
  function Vars(source: Val): Res<seq<string>>
    requires BulkNoPanic(source)
    decreases source, 1
  {
    var obj := if source.Ptr? then source.target else Some(source);
    if obj.Some? && obj.value.Rec? then VarsFields(obj.value, 0, []) else Err(UnhandledData)
  }

  function VarsFields(rec: Val, i: nat, acc: seq<string>): Res<seq<string>>
    requires rec.Rec? && i <= |rec.fields|
    requires FieldsOk(rec)
    decreases rec, 0, |rec.fields| - i
  {
    if i == |rec.fields| then Ok(acc)
    else match FieldVars(rec.fields[i].name, rec.fields[i].value)
      case Err(e) => Err(e)
      case Ok(names) => VarsFields(rec, i + 1, acc + names)
  }

  /**
   * The paths one field contributes: its own name for an exported float64,
   * string, bool, int or float32; `name.` before each path of an exported
   * struct or pointer field; nothing otherwise.
   */
  function FieldVars(name: string, f: Val): Res<seq<string>>
    requires FieldOk(name, f)
    decreases f, 2
  {
    if !Exported(name) then Ok([])
    else if f.Rec? || f.Ptr? then
      match Vars(f)
      case Err(e) => Err(e)
      case Ok(sub) => Ok(Prefixed(name + Dot, sub))
    else if IsLeaf(f) then Ok([name])
    else Ok([])
  }

  /** The specification of the root `GetFlatData`: the same walk, into a map. */
  function FlatData(source: Val): Res<map<string, Val>>
    requires BulkNoPanic(source)
    decreases source, 1
  {
    var obj := if source.Ptr? then source.target else Some(source);
    if obj.Some? && obj.value.Rec? then DataFields(obj.value, 0, map[]) else Err(UnhandledData)
  }

  function DataFields(rec: Val, i: nat, acc: map<string, Val>): Res<map<string, Val>>
    requires rec.Rec? && i <= |rec.fields|
    requires FieldsOk(rec)
    decreases rec, 0, |rec.fields| - i
  {
    if i == |rec.fields| then Ok(acc)
    else match FieldData(rec.fields[i].name, rec.fields[i].value)
      case Err(e) => Err(e)
      case Ok(added) => DataFields(rec, i + 1, acc + added)
  }

  function FieldData(name: string, f: Val): Res<map<string, Val>>
    requires FieldOk(name, f)
    decreases f, 2
  {
    if !Exported(name) then Ok(map[])
    else if f.Rec? || f.Ptr? then
      match FlatData(f)
      case Err(e) => Err(e)
      case Ok(sub) => Ok(PrefixedOn(name + Dot, sub, sub.Keys))
    else if IsLeaf(f) then Ok(map[name := f])
    else Ok(map[])
  }

  /** `GetVars`, proved to compute `Vars`. */
  method GetVars(source: Val) returns (fields: seq<string>, err: Option<Error>)
    requires BulkNoPanic(source)
    ensures err.None? ==> Vars(source) == Ok(fields)
    ensures err.Some? ==> Vars(source) == Err(err.value)
    decreases source
  {
    fields := [];
    var obj := if source.Ptr? then source.target else Some(source);
    if !(obj.Some? && obj.value.Rec?) {
      return fields, Some(UnhandledData);
    }
    var rec := obj.value;
    var i := 0;
    while i < |rec.fields|
      invariant 0 <= i <= |rec.fields|
      invariant Vars(source) == VarsFields(rec, i, fields)
    {
      var name := rec.fields[i].name;
      var f := rec.fields[i].value;
      assert FieldOk(name, f);
      var nameErr := CheckFieldName(name);
      assert fields + [] == fields;
      if nameErr.None? {
        if f.Rec? || f.Ptr? {
          var ff, e := GetVars(f);
          if e.Some? {
            return fields, e;
          }
          fields := AppendPrefixed(fields, name + Dot, ff);
        } else if IsLeaf(f) {
          fields := fields + [name];
        }
      }
      i := i + 1;
    }
    return fields, None;
  }

  /** The inner loop of `GetVars`: each sub-name appended under `prefix`, in order. */
  method AppendPrefixed(fields: seq<string>, prefix: string, ff: seq<string>) returns (r: seq<string>)
    ensures r == fields + Prefixed(prefix, ff)
  {
    r := fields;
    var j := 0;
    while j < |ff|
      invariant 0 <= j <= |ff|
      invariant r == fields + Prefixed(prefix, ff[..j])
    {
      assert ff[..j + 1] == ff[..j] + [ff[j]];
      PrefixedAppend(prefix, ff[..j], ff[j]);
      r := r + [prefix + ff[j]];
      j := j + 1;
    }
    assert ff[..|ff|] == ff;
  }

  lemma PrefixedAppend(prefix: string, names: seq<string>, x: string)
    ensures Prefixed(prefix, names + [x]) == Prefixed(prefix, names) + [prefix + x]
  {
  }

  /** The root `GetFlatData`, proved to compute `FlatData`. */
  method GetFlatData(source: Val) returns (data: map<string, Val>, err: Option<Error>)
    requires BulkNoPanic(source)
    ensures err.None? ==> FlatData(source) == Ok(data)
    ensures err.Some? ==> FlatData(source) == Err(err.value)
    decreases source
  {
    data := map[];
    var obj := if source.Ptr? then source.target else Some(source);
    if !(obj.Some? && obj.value.Rec?) {
      return data, Some(UnhandledData);
    }
    var rec := obj.value;
    var i := 0;
    while i < |rec.fields|
      invariant 0 <= i <= |rec.fields|
      invariant FlatData(source) == DataFields(rec, i, data)
    {
      var name := rec.fields[i].name;
      var f := rec.fields[i].value;
      assert FieldOk(name, f);
      var nameErr := CheckFieldName(name);
      assert data + map[] == data;
      if nameErr.None? {
        if f.Rec? || f.Ptr? {
          var sub, e := GetFlatData(f);
          if e.Some? {
            return data, e;
          }
          data := MergePrefixed(data, name + Dot, sub);
        } else if IsLeaf(f) {
          assert data[name := f] == data + map[name := f];
          data := data[name := f];
        }
      }
      i := i + 1;
    }
    return data, None;
  }
}
