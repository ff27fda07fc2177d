/**
 * The Go values the resolver inspects through reflection, as an explicit
 * inductive type, with the type codes of `datatype` and the lookup of a
 * struct field by name.
 */
module Values {
  import opened Wrappers
  import opened Text

  /** A float32 or float64 value: an opaque token that supports only equality. */
  datatype FloatToken = FloatToken(bits: int)

  /** The element kind of a Go map type, as far as `getFieldsFromMap` tells them apart. */
  datatype ElemKind =
    | ElemInt | ElemInt64 | ElemFloat32 | ElemFloat64 | ElemBool | ElemString
    | ElemInterface  // map[string]interface{}
    | ElemOther      // any other element type (maps, structs, slices, ...)

  /**
   * A Go value. `Ptr(None)` is a nil pointer; a map's `entries` is `None` for
   * a nil map; `stringKeys` is false for a map whose key type is not string,
   * in which case `entries` only stands for how many keys it has; `Other(kind)`
   * is a value of any other reflect kind (slice, int32, uint8, chan, ...),
   * `kind` telling those kinds apart.
   */
  datatype Val =
    | Ptr(target: Option<Val>)
    | Rec(fields: seq<Field>)
    | IntV(i: int)
    | Int64V(i: int)
    | F32(f: FloatToken)
    | F64(f: FloatToken)
    | Str(s: string)
    | BoolV(b: bool)
    | MapV(stringKeys: bool, elem: ElemKind, entries: Option<map<string, Val>>)
    | Other(kind: nat)

  /** A struct field: its declared name and its current value. */
  datatype Field = Field(name: string, value: Val)

  /** The failures the Go functions report through their `error` result. */
  datatype Error =
    | InvalidField(name: string)           // "field %v is not valid"
    | NotExported(first: char)             // "field must be exported (...) [%v]" of the name's first byte
    | MissingField(name: string)           // "missing field %v"
    | UnhandledData                        // "unhandled type of data %v"
    | PrimitiveSublevel(name: string)      // "field [%v] is primitive, cannot be a sublevel"
    | StructOrPointerTarget(name: string)  // "requested field [%v] points to a struct or a pointer"
    | MapTarget(name: string)              // "requested field [%v] points to a map"
    | NilField(name: string)               // "surfing stopped by nil field [%v]"
    | UnsupportedFieldType(name: string)   // "field %v is a not supported type" of the field's name
    | UnsupportedFieldValue(value: Val)    // "field %v is a not supported type" of the field's value
    | NotAMap                              // "... input is not a map but code: %v"
    | MapKeyMissing(key: string)           // "map does not contain field %v"
    | TypeNotSupported                     // "type of data not supported: %v"
    | NotFloat64(name: string)             // "variable %v is not float64 but %v"
    | NotInt64(name: string)               // "variable %v is not int64 but %v"
    | NotStringType                        // "not supported type for string: %v"
    | NotBool(name: string)                // "variable %v is not bool but %v"
    | ParseFailure(input: string)          // an error of strconv.ParseFloat / ParseInt
    | UnsupportedType                      // "unsupported type %v"
    | CannotBeUpdated                      // "field %v cannot be updated"

  type Res<T> = Result<T, Error>

  // The type codes of pkg/helpers.go.
  const PtrCode := 0
  const StructCode := 1
  const IntCode := 2
  const Int64Code := 3
  const Float32Code := 4
  const Float64Code := 5
  const StringCode := 6
  const BoolCode := 7
  const MapCode := 8
  const NotSupportedCode := -1

  /** `datatype`: the code of a value's kind; a pointer is a pointer whatever it points to. */
  function Datatype(v: Val): (code: int)
    ensures -1 <= code <= 8
    ensures code == PtrCode <==> v.Ptr?
    ensures code == StructCode <==> v.Rec?
    ensures code == IntCode <==> v.IntV?
    ensures code == Int64Code <==> v.Int64V?
    ensures code == Float32Code <==> v.F32?
    ensures code == Float64Code <==> v.F64?
    ensures code == StringCode <==> v.Str?
    ensures code == BoolCode <==> v.BoolV?
    ensures code == MapCode <==> v.MapV?
    ensures code == NotSupportedCode <==> v.Other?
  {
    match v
    case Ptr(_) => PtrCode
    case Rec(_) => StructCode
    case IntV(_) => IntCode
    case Int64V(_) => Int64Code
    case F32(_) => Float32Code
    case F64(_) => Float64Code
    case Str(_) => StringCode
    case BoolV(_) => BoolCode
    case MapV(_, _, _) => MapCode
    case Other(_) => NotSupportedCode
  }

  /** The codes `Compare` treats as comparable scalars. */
  predicate IsScalarCode(code: int) {
    code in {IntCode, Int64Code, Float32Code, Float64Code, StringCode, BoolCode}
  }

  /** The kinds a resolver returns as a terminal value: float64, string, bool, int, float32. */
  predicate IsLeaf(v: Val) {
    v.F64? || v.Str? || v.BoolV? || v.IntV? || v.F32?
  }

  /** `FieldByName`: the index of the first field called `name`. */
  function FieldIndex(fields: seq<Field>, name: string): (r: Option<nat>)
    ensures r.Some? ==> r.value < |fields| && fields[r.value].name == name
    ensures r.Some? ==> forall j :: 0 <= j < r.value ==> fields[j].name != name
    ensures r.None? <==> forall j :: 0 <= j < |fields| ==> fields[j].name != name
  {
    if fields == [] then None
    else if fields[0].name == name then Some(0)
    else match FieldIndex(fields[1..], name)
      case None => None
      case Some(i) => Some(i + 1)
  }

  /** The keys present in a map value (a nil map has none). */
  function MapKeys(m: Val): set<string>
    requires m.MapV?
  {
    if m.entries.Some? then m.entries.value.Keys else {}
  }

  predicate NoDuplicates(s: seq<string>) {
    forall i, j :: 0 <= i < j < |s| ==> s[i] != s[j]
  }

  predicate DistinctNames(fields: seq<Field>) {
    forall i, j :: 0 <= i < j < |fields| ==> fields[i].name != fields[j].name
  }

  /** A map element of kind `elem` has the matching constructor. */
  predicate Conforms(elem: ElemKind, x: Val) {
    match elem
    case ElemInt => x.IntV?
    case ElemInt64 => x.Int64V?
    case ElemFloat32 => x.F32?
    case ElemFloat64 => x.F64?
    case ElemBool => x.BoolV?
    case ElemString => x.Str?
    case _ => true
  }

  /**
   * What Go's type system guarantees of a value: struct field names are
   * non-empty and distinct, and a typed map holds elements of its type.
   */
  predicate WellFormed(v: Val)
    decreases v
  {
    match v
    case Ptr(t) => t.Some? ==> WellFormed(t.value)
    case Rec(fs) =>
      && DistinctNames(fs)
      && (forall i :: 0 <= i < |fs| ==> fs[i].name != "" && WellFormed(fs[i].value))
    case MapV(_, elem, es) =>
      es.Some? ==> forall k :: k in es.value ==> Conforms(elem, es.value[k])
    case _ => true
  }

  /** An exported name: its first character is an upper-case letter. */
  predicate Exported(name: string) {
    name != "" && IsUpper(name[0])
  }

  /**
   * No exported field name reachable through struct fields and pointers
   * contains the separator `sep`.
   */
  predicate NamesSepFree(v: Val, sep: string)
    decreases v
  {
    match v
    case Ptr(t) => t.Some? ==> NamesSepFree(t.value, sep)
    case Rec(fs) =>
      forall i :: 0 <= i < |fs| ==>
        (Exported(fs[i].name) ==> SepFree(fs[i].name, sep)) && NamesSepFree(fs[i].value, sep)
    case _ => true
  }
}
