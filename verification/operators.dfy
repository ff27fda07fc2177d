/**
 * The typed getters and the comparator of the current package
 * (pkg/operators.go). Each getter resolves a path with `get` and coerces the
 * value by its type code. The Go type assertions that would panic become
 * preconditions; `strconv.ParseFloat` and `strconv.ParseInt` are parameters.
 */
module Operators {
  import opened Wrappers
  import opened Text
  import opened Values
  import opened Helpers

  /** The inputs on which `GetFloat64` does not panic: no float32, int64 or int value reaches `i.(float64)`. */
  ghost predicate Float64NoPanic(name: string, source: Val, sep: string) {
    && NoPanic(name, source, sep)
    && (Get(name, source, sep).Ok? ==> Get(name, source, sep).value.1 !in {Float32Code, Int64Code, IntCode})
  }

  /**
   * `GetFloat64`: a float64 value as it is, a string parsed by `parseFloat`;
   * a bool, pointer, struct or map is an error; `get`'s errors, a failed
   * resolution or a value of an unsupported kind, are passed on.
   */
  function GetFloat64(name: string, source: Val, sep: string, parseFloat: string -> Res<FloatToken>): (r: Res<FloatToken>)
    requires Float64NoPanic(name, source, sep)
    ensures GetValueOf(name, source, sep).Err? ==> r == Err(GetValueOf(name, source, sep).error)
    ensures GetValueOf(name, source, sep).Ok? && GetValueOf(name, source, sep).value.Other? ==> r == Err(TypeNotSupported)
    ensures r.Ok? ==>
              var v := GetValueOf(name, source, sep).value;
              v == F64(r.value) || (v.Str? && parseFloat(v.s) == r)
    ensures GetValueOf(name, source, sep).Ok? ==>
              var v := GetValueOf(name, source, sep).value;
              && (v.F64? ==> r == Ok(v.f))
              && (v.Str? ==> r == parseFloat(v.s))
              && (v.BoolV? || v.Ptr? || v.Rec? || v.MapV? ==> r == Err(NotFloat64(name)))
  {
    match Get(name, source, sep)
    case Err(e) => Err(e)
    case Ok((i, t)) =>
      if t in {Float64Code, Float32Code, Int64Code, IntCode} then
        if t == Float64Code then Ok(i.f) else assert false; Err(NotFloat64(name))
      else if t == StringCode then parseFloat(i.s)
      else Err(NotFloat64(name))
  }

  /** The inputs on which `GetInt64` does not panic: no int value reaches `i.(int64)`. */
  ghost predicate Int64NoPanic(name: string, source: Val, sep: string) {
    NoPanic(name, source, sep) && (Get(name, source, sep).Ok? ==> Get(name, source, sep).value.1 != IntCode)
  }

  /**
   * `GetInt64`: an int64 value as it is (only a map element can be one, since
   * the resolver rejects int64 fields), a string parsed by `parseInt` in base
   * 0; anything else is an error; `get`'s errors, a failed resolution or a
   * value of an unsupported kind, are passed on.
   */
  function GetInt64(name: string, source: Val, sep: string, parseInt: string -> Res<int>): (r: Res<int>)
    requires Int64NoPanic(name, source, sep)
    ensures GetValueOf(name, source, sep).Err? ==> r == Err(GetValueOf(name, source, sep).error)
    ensures GetValueOf(name, source, sep).Ok? && GetValueOf(name, source, sep).value.Other? ==> r == Err(TypeNotSupported)
    ensures r.Ok? ==>
              var v := GetValueOf(name, source, sep).value;
              v == Int64V(r.value) || (v.Str? && parseInt(v.s) == r)
    ensures GetValueOf(name, source, sep).Ok? ==>
              var v := GetValueOf(name, source, sep).value;
              && (v.Int64V? ==> r == Ok(v.i))
              && (v.Str? ==> r == parseInt(v.s))
              && (v.F64? || v.F32? || v.BoolV? || v.Ptr? || v.Rec? || v.MapV? ==> r == Err(NotInt64(name)))
  {
    match Get(name, source, sep)
    case Err(e) => Err(e)
    case Ok((i, t)) =>
      if t in {Int64Code, IntCode} then
        if t == Int64Code then Ok(i.i) else assert false; Err(NotInt64(name))
      else if t == StringCode then parseInt(i.s)
      else Err(NotInt64(name))
  }

  /** The inputs on which `GetString` does not panic: only a string reaches `i.(string)`. */
  ghost predicate StringNoPanic(name: string, source: Val, sep: string) {
    && NoPanic(name, source, sep)
    && (Get(name, source, sep).Ok? ==> Get(name, source, sep).value.1 in {StringCode, PtrCode, StructCode, MapCode})
  }

  /**
   * `GetString`: a string value as it is; a pointer, struct or map is an
   * error; `get`'s errors, a failed resolution or a value of an unsupported
   * kind, are passed on.
   */
  function GetString(name: string, source: Val, sep: string): (r: Res<string>)
    requires StringNoPanic(name, source, sep)
    ensures GetValueOf(name, source, sep).Err? ==> r == Err(GetValueOf(name, source, sep).error)
    ensures GetValueOf(name, source, sep).Ok? && GetValueOf(name, source, sep).value.Other? ==> r == Err(TypeNotSupported)
    ensures r.Ok? <==> GetValueOf(name, source, sep).Ok? && GetValueOf(name, source, sep).value.Str?
    ensures r.Ok? ==> GetValueOf(name, source, sep) == Ok(Str(r.value))
    ensures GetValueOf(name, source, sep).Ok? && (GetValueOf(name, source, sep).value.Ptr? || GetValueOf(name, source, sep).value.Rec? || GetValueOf(name, source, sep).value.MapV?) ==>
              r == Err(NotStringType)
  {
    match Get(name, source, sep)
    case Err(e) => Err(e)
    case Ok((i, t)) =>
      if t in {PtrCode, StructCode, MapCode} then Err(NotStringType)
      else if t == StringCode then Ok(i.s)
      else assert false; Err(NotStringType)
  }

  /**
   * `GetBool`: a bool value as it is; a string is true iff it reads "TRUE"
   * once upper-cased, and is never an error; anything else is an error;
   * `get`'s errors, a failed resolution or a value of an unsupported kind,
   * are passed on.
   */
  function GetBool(name: string, source: Val, sep: string): (r: Res<bool>)
    requires NoPanic(name, source, sep)
    ensures GetValueOf(name, source, sep).Err? ==> r == Err(GetValueOf(name, source, sep).error)
    ensures GetValueOf(name, source, sep).Ok? && GetValueOf(name, source, sep).value.Other? ==> r == Err(TypeNotSupported)
    ensures r.Ok? <==> GetValueOf(name, source, sep).Ok? && (GetValueOf(name, source, sep).value.BoolV? || GetValueOf(name, source, sep).value.Str?)
    ensures r.Ok? && GetValueOf(name, source, sep).value.BoolV? ==> r.value == GetValueOf(name, source, sep).value.b
    ensures r.Ok? && GetValueOf(name, source, sep).value.Str? ==> (r.value <==> EqualFoldAscii(GetValueOf(name, source, sep).value.s, "true"))
  {
    match Get(name, source, sep)
    case Err(e) => Err(e)
    case Ok((i, t)) =>
      if t == BoolCode then Ok(i.b)
      else if t == StringCode then
        TrueIgnoringCase(i.s);
        Ok(ToUpper(i.s) == "TRUE")
      else Err(NotBool(name))
  }

  /** Upper-casing gives "TRUE" exactly for the spellings of "true" in any case. */
  lemma TrueIgnoringCase(s: string)
    ensures ToUpper(s) == "TRUE" <==> EqualFoldAscii(s, "true")
  {
    if |s| == 4 {
      var u := ToUpper(s);
      assert u == "TRUE" <==> u[0] == 'T' && u[1] == 'R' && u[2] == 'U' && u[3] == 'E';
    }
  }

  /**
   * `Compare`: values of different type codes are unequal, with no numeric
   * widening; values of the same scalar code are compared; values of the same
   * non-scalar code (pointer, struct, map, unsupported) are an error.
   */
  function Compare(f1: Val, f2: Val): (r: Res<bool>)
    ensures Datatype(f1) != Datatype(f2) ==> r == Ok(false)
    ensures Datatype(f1) == Datatype(f2) && IsScalarCode(Datatype(f1)) ==> r == Ok(f1 == f2)
    ensures Datatype(f1) == Datatype(f2) && !IsScalarCode(Datatype(f1)) ==> r == Err(UnsupportedType)
  {
    var k1 := Datatype(f1);
    var k2 := Datatype(f2);
    if k1 != k2 then Ok(false)
    else if k1 == IntCode then Ok(f1.i == f2.i)
    else if k1 == Int64Code then Ok(f1.i == f2.i)
    else if k1 == Float32Code then Ok(f1.f == f2.f)
    else if k1 == Float64Code then Ok(f1.f == f2.f)
    else if k1 == BoolCode then Ok(f1.b == f2.b)
    else if k1 == StringCode then Ok(f1.s == f2.s)
    else Err(UnsupportedType)
  }

  /** `Compare` is reflexive on scalars and symmetric on all values. */
  lemma CompareReflexiveSymmetric(a: Val, b: Val)
    ensures IsScalarCode(Datatype(a)) ==> Compare(a, a) == Ok(true)
    ensures Compare(a, b) == Compare(b, a)
  {
  }
}
