/**
 * The typed getters read back what `GetFlatData` produced: for every key of
 * the flattened map, the getter matching the stored value's kind returns it.
 */
module OperatorsProps {
  import opened Wrappers
  import opened Text
  import opened Values
  import opened Helpers
  import opened Dataq
  import opened DataqProps
  import opened Operators

  lemma FlatDataThroughGetters(source: Val, sep: string, k: string,
                               parseFloat: string -> Res<FloatToken>, parseInt: string -> Res<int>)
    requires RoundTripReady(source, sep) && Flatten(source, sep).Ok? && k in Flatten(source, sep).value
    ensures NoPanic(k, source, sep)
    ensures var v := Flatten(source, sep).value[k];
            && (v.F64? ==> Float64NoPanic(k, source, sep) && GetFloat64(k, source, sep, parseFloat) == Ok(v.f))
            && (v.Str? ==> StringNoPanic(k, source, sep) && GetString(k, source, sep) == Ok(v.s))
            && (v.Str? ==> GetBool(k, source, sep) == Ok(EqualFoldAscii(v.s, "true")))
            && (v.BoolV? ==> GetBool(k, source, sep) == Ok(v.b))
            && (v.Int64V? ==> Int64NoPanic(k, source, sep) && GetInt64(k, source, sep, parseInt) == Ok(v.i))
            && (IsScalarCode(Datatype(v)) ==>
                 GetValueOf(k, source, sep).Ok? && Compare(GetValueOf(k, source, sep).value, v) == Ok(true))
  {
    RoundTrip(source, sep);
  }
}
