/**
 * The earlier revision of the resolver, in the root package (dataq.go and
 * helpers.go): the walk that returns a field of any kind, the getters built
 * on it and the reflect-kind comparator.
 */
module Legacy {
  import opened Wrappers
  import opened Text
  import opened Values
  import Operators

  const Dot := "."

  /** A `reflect.Kind`: the kinds the code names, and any other kind by number. */
  datatype Kind = KPtr | KStruct | KInt | KInt64 | KFloat32 | KFloat64 | KString | KBool | KMap | KOther(k: nat)

  function KindOf(v: Val): Kind {
    match v
    case Ptr(_) => KPtr
    case Rec(_) => KStruct
    case IntV(_) => KInt
    case Int64V(_) => KInt64
    case F32(_) => KFloat32
    case F64(_) => KFloat64
    case Str(_) => KString
    case BoolV(_) => KBool
    case MapV(_, _, _) => KMap
    case Other(k) => KOther(k)
  }

  /** Two values have the same reflect kind iff they have the same type code and, when unsupported, the same kind. */
  lemma KindRefinesCode(a: Val, b: Val)
    ensures KindOf(a) == KindOf(b) <==> Datatype(a) == Datatype(b) && (a.Other? ==> a.kind == b.kind)
  {
  }

  /**
   * `checkFieldName` of dataq.go and helpers.go: no error iff the first
   * character is upper-case; the error carries that first character, which
   * is what the message formats. An empty name panics, hence the
   * precondition.
   */
  function CheckFieldName(name: string): (r: Option<Error>)
    requires name != ""
    ensures r.None? <==> Exported(name)
    ensures r.Some? ==> r.value == NotExported(name[0])
  {
    if !IsUpper(name[0]) then Some(NotExported(name[0])) else None
  }

  /**
   * The inputs on which the walk does not panic: the path splits into at
   * least one piece and every segment it checks is non-empty.
   */
  ghost predicate ResolveNoPanic(name: string, source: Val, splitSep: string, joinSep: string)
    decreases source
  {
    var fields := Split(name, splitSep);
    if |fields| == 0 || fields[0] == "" then false
    else if !IsUpper(fields[0][0]) then true
    else
      var obj := if source.Ptr? then source.target else Some(source);
      if obj.None? || !obj.value.Rec? then true
      else match FieldIndex(obj.value.fields, fields[0])
        case None => true
        case Some(i) =>
          var f := obj.value.fields[i].value;
          |fields| == 1 || !(f.Rec? || f.Ptr?) || ResolveNoPanic(Join(fields[1..], joinSep), f, splitSep, joinSep)
  }

  /**
   * `getValueOf` of the root package: split the path on `splitSep`, check the
   * first segment, dereference one pointer, find the field; the last segment
   * yields the field whatever its kind; with segments left, a struct or
   * pointer field is walked further with the rest rejoined by `joinSep`, and
   * any other kind is an error. dataq.go splits and rejoins with "."; helpers.go
   * splits with its `sep` and rejoins with ".".
   */
  function Resolve(name: string, source: Val, splitSep: string, joinSep: string): (r: Res<Val>)
    requires ResolveNoPanic(name, source, splitSep, joinSep)
    ensures r.Ok? ==> Exported(Split(name, splitSep)[0])
    decreases source
  {
    var fields := Split(name, splitSep);
    var fieldName := fields[0];
    match CheckFieldName(fieldName)
    case Some(e) => Err(e)
    case None =>
      var obj := if source.Ptr? then source.target else Some(source);
      if obj.None? || !obj.value.Rec? then Err(UnhandledData)
      else match FieldIndex(obj.value.fields, fieldName)
        case None => Err(MissingField(fieldName))
        case Some(i) =>
          var f := obj.value.fields[i].value;
          if |fields| == 1 then Ok(f)
          else if f.Rec? || f.Ptr? then Resolve(Join(fields[1..], joinSep), f, splitSep, joinSep)
          else Err(UnsupportedFieldValue(f))
  }

  /** The segments a walk over a list of segments may check are non-empty. */
  ghost predicate SegmentsNoPanic(segs: seq<string>, source: Val)
    decreases source
  {
    if |segs| == 0 || segs[0] == "" then false
    else if !IsUpper(segs[0][0]) then true
    else
      var obj := if source.Ptr? then source.target else Some(source);
      if obj.None? || !obj.value.Rec? then true
      else match FieldIndex(obj.value.fields, segs[0])
        case None => true
        case Some(i) =>
          var f := obj.value.fields[i].value;
          |segs| == 1 || !(f.Rec? || f.Ptr?) || SegmentsNoPanic(segs[1..], f)
  }

  /**
   * The walk over a list of segments, with no string splitting: the
   * reference the string-based walk is proved against.
   */
  function ResolveSegments(segs: seq<string>, source: Val): (r: Res<Val>)
    requires SegmentsNoPanic(segs, source)
    decreases source
  {
    match CheckFieldName(segs[0])
    case Some(e) => Err(e)
    case None =>
      var obj := if source.Ptr? then source.target else Some(source);
      if obj.None? || !obj.value.Rec? then Err(UnhandledData)
      else match FieldIndex(obj.value.fields, segs[0])
        case None => Err(MissingField(segs[0]))
        case Some(i) =>
          var f := obj.value.fields[i].value;
          if |segs| == 1 then Ok(f)
          else if f.Rec? || f.Ptr? then ResolveSegments(segs[1..], f)
          else Err(UnsupportedFieldValue(f))
  }

  /**
   * When the walk splits and rejoins with the same non-empty separator, it
   * walks exactly the segments of the path: each call consumes one segment.
   */
  lemma {:induction false} ResolveBySegments(name: string, source: Val, sep: string)
    requires sep != ""
    ensures ResolveNoPanic(name, source, sep, sep) <==> SegmentsNoPanic(Split(name, sep), source)
    ensures ResolveNoPanic(name, source, sep, sep) ==>
              Resolve(name, source, sep, sep) == ResolveSegments(Split(name, sep), source)
    decreases source
  {
    var fields := Split(name, sep);
    if fields[0] != "" && IsUpper(fields[0][0]) {
      var obj := if source.Ptr? then source.target else Some(source);
      if obj.Some? && obj.value.Rec? && FieldIndex(obj.value.fields, fields[0]).Some? {
        var f := obj.value.fields[FieldIndex(obj.value.fields, fields[0]).value].value;
        if |fields| > 1 && (f.Rec? || f.Ptr?) {
          SplitJoinTail(name, sep);
          ResolveBySegments(Join(fields[1..], sep), f, sep);
        }
      }
    }
  }

  /** The typed getters' view of a path: `Get` followed by the dynamic kind of the value. */
  ghost predicate Float64NoPanic(name: string, source: Val) {
    && ResolveNoPanic(name, source, Dot, Dot)
    && (Resolve(name, source, Dot, Dot).Ok? ==> KindOf(Resolve(name, source, Dot, Dot).value) !in {KFloat32, KInt64, KInt})
  }

  /**
   * `GetFloat64` of dataq.go: a float64 as it is, a string parsed by
   * `parseFloat`, any other kind an error (a float32, int64 or int panics in
   * the type assertion, hence the precondition).
   */
  function GetFloat64(name: string, source: Val, parseFloat: string -> Res<FloatToken>): (r: Res<FloatToken>)
    requires Float64NoPanic(name, source)
    ensures Resolve(name, source, Dot, Dot).Err? ==> r == Err(Resolve(name, source, Dot, Dot).error)
    ensures Resolve(name, source, Dot, Dot).Ok? ==>
              var v := Resolve(name, source, Dot, Dot).value;
              && (v.F64? ==> r == Ok(v.f))
              && (v.Str? ==> r == parseFloat(v.s))
              && (!v.F64? && !v.Str? ==> r == Err(NotFloat64(name)))
  {
    match Resolve(name, source, Dot, Dot)
    case Err(e) => Err(e)
    case Ok(v) =>
      var t := KindOf(v);
      if t in {KFloat64, KFloat32, KInt64, KInt} then
        if t == KFloat64 then Ok(v.f) else assert false; Err(NotFloat64(name))
      else if t == KString then parseFloat(v.s)
      else Err(NotFloat64(name))
  }

  ghost predicate Int64NoPanic(name: string, source: Val) {
    && ResolveNoPanic(name, source, Dot, Dot)
    && (Resolve(name, source, Dot, Dot).Ok? ==> KindOf(Resolve(name, source, Dot, Dot).value) != KInt)
  }

  /**
   * `GetInt64` of dataq.go: an int64 as it is, a string parsed by `parseInt`
   * in base 0, any other kind an error (an int panics in the type assertion,
   * hence the precondition).
   */
  function GetInt64(name: string, source: Val, parseInt: string -> Res<int>): (r: Res<int>)
    requires Int64NoPanic(name, source)
    ensures Resolve(name, source, Dot, Dot).Err? ==> r == Err(Resolve(name, source, Dot, Dot).error)
    ensures Resolve(name, source, Dot, Dot).Ok? ==>
              var v := Resolve(name, source, Dot, Dot).value;
              && (v.Int64V? ==> r == Ok(v.i))
              && (v.Str? ==> r == parseInt(v.s))
              && (!v.Int64V? && !v.Str? ==> r == Err(NotInt64(name)))
  {
    match Resolve(name, source, Dot, Dot)
    case Err(e) => Err(e)
    case Ok(v) =>
      var t := KindOf(v);
      if t in {KInt64, KInt} then
        if t == KInt64 then Ok(v.i) else assert false; Err(NotInt64(name))
      else if t == KString then parseInt(v.s)
      else Err(NotInt64(name))
  }

  /** `GetString` of dataq.go asserts the value is a string; any other kind panics. */
  ghost predicate StringNoPanic(name: string, source: Val) {
    && ResolveNoPanic(name, source, Dot, Dot)
    && (Resolve(name, source, Dot, Dot).Ok? ==> Resolve(name, source, Dot, Dot).value.Str?)
  }

  /** `GetString` of dataq.go: the string found, or `Get`'s error. */
  function GetString(name: string, source: Val): (r: Res<string>)
    requires StringNoPanic(name, source)
    ensures r.Ok? <==> Resolve(name, source, Dot, Dot).Ok?
    ensures r.Ok? ==> Resolve(name, source, Dot, Dot) == Ok(Str(r.value))
    ensures r.Err? ==> r.error == Resolve(name, source, Dot, Dot).error
  {
    match Resolve(name, source, Dot, Dot)
    case Err(e) => Err(e)
    case Ok(v) => Ok(v.s)
  }

  /** `GetBool` of dataq.go: only a bool is accepted; unlike the current package, a string is an error. */
  function GetBool(name: string, source: Val): (r: Res<bool>)
    requires ResolveNoPanic(name, source, Dot, Dot)
    ensures r.Ok? <==> Resolve(name, source, Dot, Dot).Ok? && Resolve(name, source, Dot, Dot).value.BoolV?
    ensures r.Ok? ==> Resolve(name, source, Dot, Dot) == Ok(BoolV(r.value))
    ensures Resolve(name, source, Dot, Dot).Ok? && !Resolve(name, source, Dot, Dot).value.BoolV? ==> r == Err(NotBool(name))
    ensures Resolve(name, source, Dot, Dot).Err? ==> r == Err(Resolve(name, source, Dot, Dot).error)
  {
    match Resolve(name, source, Dot, Dot)
    case Err(e) => Err(e)
    case Ok(v) => if KindOf(v) == KBool then Ok(v.b) else Err(NotBool(name))
  }

  /**
   * `Compare` of dataq.go and helpers.go: values of different reflect kinds
   * are unequal; values of the same scalar kind are compared; values of the
   * same other kind are an error.
   */
  function Compare(f1: Val, f2: Val): (r: Res<bool>)
    ensures KindOf(f1) != KindOf(f2) ==> r == Ok(false)
    ensures KindOf(f1) == KindOf(f2) && IsScalarCode(Datatype(f1)) ==> r == Ok(f1 == f2)
    ensures KindOf(f1) == KindOf(f2) && !IsScalarCode(Datatype(f1)) ==> r == Err(UnsupportedType)
  {
    var k1 := KindOf(f1);
    var k2 := KindOf(f2);
    if k1 != k2 then Ok(false)
    else match k1
      case KInt => Ok(f1.i == f2.i)
      case KInt64 => Ok(f1.i == f2.i)
      case KFloat32 => Ok(f1.f == f2.f)
      case KFloat64 => Ok(f1.f == f2.f)
      case KBool => Ok(f1.b == f2.b)
      case KString => Ok(f1.s == f2.s)
      case _ => Err(UnsupportedType)
  }

  /**
   * The two comparators agree except on two values of different unsupported
   * kinds, which the reflect kinds tell apart and the type codes do not.
   */
  lemma {:induction false} CompareAgreesWithCodes(a: Val, b: Val)
    ensures !(a.Other? && b.Other? && a.kind != b.kind) ==> Compare(a, b) == Operators.Compare(a, b)
    ensures a.Other? && b.Other? && a.kind != b.kind ==>
              Compare(a, b) == Ok(false) && Operators.Compare(a, b) == Err(UnsupportedType)
  {
    KindRefinesCode(a, b);
  }
}
