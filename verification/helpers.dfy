/**
 * The field-name rule, the single-level map helpers and the recursive
 * dotted-path resolver of the current package (pkg/helpers.go).
 */
module Helpers {
  import opened Wrappers
  import opened Text
  import opened Values

  /**
   * `checkFieldName`: a segment is valid iff its first character is an
   * upper-case letter. The source's `len(name) < 0` guard never fires, and an
   * empty name panics on its first rune, hence the precondition.
   */
  function CheckFieldName(name: string): (ok: bool)
    requires name != ""
    ensures ok <==> Exported(name)
  {
    IsUpper(name[0])
  }

  /** The maps whose keys `getFieldsFromMap` lists: string keys and a handled element kind. */
  predicate ListsKeys(m: Val) {
    m.MapV? && m.stringKeys && m.elem != ElemOther
  }

  /**
   * `getFieldsFromMap`: every key of a string-keyed map whose element kind is
   * int, int64, float32, float64, bool, string or interface, each exactly
   * once and in no particular order; the empty list for anything else.
   */
  method GetFieldsFromMap(m: Val) returns (fields: seq<string>)
    ensures !ListsKeys(m) ==> fields == []
    ensures ListsKeys(m) ==> forall k :: k in fields <==> k in MapKeys(m)
    ensures NoDuplicates(fields)
  {
    fields := [];
    if Datatype(m) != MapCode || !m.stringKeys {
      return;
    }
    if m.elem == ElemOther {
      return;
    }
    // The source has one such loop per element kind; they all collect the keys.
    var remaining := MapKeys(m);
    while remaining != {}
      invariant remaining <= MapKeys(m)
      invariant forall k :: k in fields <==> k in MapKeys(m) && k !in remaining
      invariant NoDuplicates(fields)
      decreases remaining
    {
      var k :| k in remaining;
      fields := fields + [k];
      remaining := remaining - {k};
    }
  }

  /** The specification of `getValueFromMap`. */
  function MapLookup(field: string, m: Val): Res<Val>
  {
    if !m.MapV? then Err(NotAMap)
    else if field in MapKeys(m) then Ok(m.entries.value[field])
    else Err(MapKeyMissing(field))
  }

  /** A map whose keys the source can read as strings without panicking. */
  predicate KeysReadable(m: Val) {
    m.MapV? ==> m.stringKeys || MapKeys(m) == {}
  }

  /**
   * `getValueFromMap`: the value stored under `field`; an error when the key
   * is absent or the input is not a map. Scanning the keys of a map with
   * non-string keys panics, hence the precondition.
   */
  method GetValueFromMap(field: string, m: Val) returns (r: Res<Val>)
    requires KeysReadable(m)
    ensures !m.MapV? ==> r == Err(NotAMap)
    ensures m.MapV? && field in MapKeys(m) ==> r == Ok(m.entries.value[field])
    ensures m.MapV? && field !in MapKeys(m) ==> r == Err(MapKeyMissing(field))
    ensures r == MapLookup(field, m)
  {
    if Datatype(m) != MapCode {
      return Err(NotAMap);
    }
    var keys := MapKeys(m);
    while keys != {}
      invariant keys <= MapKeys(m)
      invariant field in MapKeys(m) ==> field in keys
      decreases keys
    {
      var e :| e in keys;
      if e == field {
        return Ok(m.entries.value[e]);
      }
      keys := keys - {e};
    }
    return Err(MapKeyMissing(field));
  }

  /**
   * The inputs on which `getValueOf` does not panic: every segment it checks
   * is non-empty, it never asks a struct-valued field whether it is nil, and
   * it never scans a map with non-string keys.
   */
  ghost predicate NoPanic(name: string, source: Val, sep: string)
    decreases source
  {
    var fields := Split(name, sep);
    if |fields| == 0 || fields[0] == "" then false
    else if !IsUpper(fields[0][0]) then true
    else
      var obj := if source.Ptr? then source.target else Some(source);
      if obj.None? || !obj.value.Rec? then true
      else match FieldIndex(obj.value.fields, fields[0])
        case None => true
        case Some(i) =>
          var f := obj.value.fields[i].value;
          if |fields| == 1 then true
          else match f
            case Rec(_) => false
            case Ptr(Some(_)) => NoPanic(Join(fields[1..], sep), f, sep)
            case MapV(_, _, Some(_)) => KeysReadable(f)
            case _ => true
  }

  /**
   * `getValueOf`: resolves the path `name`, split on `sep`, against `source`,
   * one segment per call. A pointer source is dereferenced once; the first
   * segment must be a valid name and a field of the resulting struct. A
   * float64, string, bool, int or float32 field ends the walk; a struct
   * reached through a pointer is walked further; a map field looks up the
   * rest of the path, rejoined with `sep`, as one key.
   */
  function GetValueOf(name: string, source: Val, sep: string): (r: Res<Val>)
    requires NoPanic(name, source, sep)
    ensures r.Ok? ==> Exported(Split(name, sep)[0])
    ensures r.Ok? && |Split(name, sep)| == 1 ==> IsLeaf(r.value)
    decreases source
  {
    var fields := Split(name, sep);
    var fieldName := fields[0];
    if !CheckFieldName(fieldName) then Err(InvalidField(fieldName))
    else
      var obj := if source.Ptr? then source.target else Some(source);
      if obj.None? || !obj.value.Rec? then Err(UnhandledData)
      else match FieldIndex(obj.value.fields, fieldName)
        case None => Err(MissingField(fieldName))
        case Some(i) =>
          var f := obj.value.fields[i].value;
          if IsLeaf(f) then
            if |fields| == 1 then Ok(f) else Err(PrimitiveSublevel(fieldName))
          else if f.Rec? || f.Ptr? then
            if |fields| == 1 then Err(StructOrPointerTarget(fieldName))
            else if f.Rec? then assert false; Err(UnhandledData)  // IsNil panics on a struct
            else if f.target.None? then Err(NilField(fieldName))
            else GetValueOf(Join(fields[1..], sep), f, sep)
          else if f.MapV? then
            if |fields| == 1 then Err(MapTarget(fieldName))
            else if f.entries.None? then Err(NilField(fieldName))
            else MapLookup(Join(fields[1..], sep), f)
          else Err(UnsupportedFieldType(fieldName))
  }

  /**
   * `get`: the resolved value with its type code; a value of an unsupported
   * kind is an error, so the code returned is never `NotSupportedCode`.
   */
  function Get(name: string, source: Val, sep: string): (r: Res<(Val, int)>)
    requires NoPanic(name, source, sep)
    ensures GetValueOf(name, source, sep).Err? ==> r == Err(GetValueOf(name, source, sep).error)
    ensures GetValueOf(name, source, sep).Ok? && GetValueOf(name, source, sep).value.Other? ==>
              r == Err(TypeNotSupported)
    ensures GetValueOf(name, source, sep).Ok? && !GetValueOf(name, source, sep).value.Other? ==>
              r.Ok? && r.value.0 == GetValueOf(name, source, sep).value
    ensures r.Ok? ==> GetValueOf(name, source, sep) == Ok(r.value.0)
    ensures r.Ok? ==> r.value.1 == Datatype(r.value.0) && r.value.1 != NotSupportedCode
  {
    match GetValueOf(name, source, sep)
    case Err(e) => Err(e)
    case Ok(f) =>
      var t := Datatype(f);
      if t == NotSupportedCode then Err(TypeNotSupported) else Ok((f, t))
  }
}
