/**
 * The in-place setters of the root package (dataq.go): `SetString`,
 * `SetInt64`, `SetFloat64` and `SetBool`. A `Variable` is the caller's data;
 * pointer targets are stored inline, so a write through a pointer is a change
 * of the variable's value. A field can be set only when the struct holding it
 * was reached through a pointer: a struct reached by value is a copy.
 */
module LegacySet {
  import opened Wrappers
  import opened Text
  import opened Values
  import opened Legacy

  /** The same field names, in the same order. */
  predicate SameNames(a: seq<Field>, b: seq<Field>) {
    |a| == |b| && forall j :: 0 <= j < |a| ==> a[j].name == b[j].name
  }

  /**
   * `source` with the field at the end of `segs` replaced by `x`, and every
   * struct and pointer on the way rebuilt around it.
   */
  function Assign(segs: seq<string>, source: Val, x: Val): (r: Val)
    requires SegmentsNoPanic(segs, source) && ResolveSegments(segs, source).Ok?
    ensures KindOf(r) == KindOf(source)
    ensures source.Rec? ==> r.Rec? && SameNames(source.fields, r.fields)
    ensures source.Ptr? ==> source.target.Some? && source.target.value.Rec? && r.Ptr? && r.target.Some? && r.target.value.Rec? &&
                            SameNames(source.target.value.fields, r.target.value.fields)
    decreases source
  {
    var rec := if source.Ptr? then source.target.value else source;
    var i := FieldIndex(rec.fields, segs[0]).value;
    var f := rec.fields[i].value;
    var f' := if |segs| == 1 then x else Assign(segs[1..], f, x);
    var rec' := Rec(rec.fields[i := Field(rec.fields[i].name, f')]);
    if source.Ptr? then Ptr(Some(rec')) else rec'
  }

  /** Field lookup depends only on the names. */
  lemma FieldIndexSameNames(a: seq<Field>, b: seq<Field>, name: string)
    requires SameNames(a, b)
    ensures FieldIndex(a, name) == FieldIndex(b, name)
    decreases |a|
  {
  }

  /** After the write, the path resolves to the value written. */
  lemma {:induction false} AssignThenResolve(segs: seq<string>, source: Val, x: Val)
    requires SegmentsNoPanic(segs, source) && ResolveSegments(segs, source).Ok?
    ensures SegmentsNoPanic(segs, Assign(segs, source, x))
    ensures ResolveSegments(segs, Assign(segs, source, x)) == Ok(x)
    decreases source
  {
    var rec := if source.Ptr? then source.target.value else source;
    var i := FieldIndex(rec.fields, segs[0]).value;
    var r := Assign(segs, source, x);
    var rec' := if r.Ptr? then r.target.value else r;
    FieldIndexSameNames(rec.fields, rec'.fields, segs[0]);
    if |segs| > 1 {
      AssignThenResolve(segs[1..], rec.fields[i].value, x);
    }
  }

  /** `p` is `segs` or leads to it. */
  predicate IsPrefix(p: seq<string>, segs: seq<string>) {
    |p| <= |segs| && segs[..|p|] == p
  }

  lemma PrefixTail(p: seq<string>, segs: seq<string>)
    requires |p| > 0 && |segs| > 0 && p[0] == segs[0]
    ensures IsPrefix(p, segs) <==> IsPrefix(p[1..], segs[1..])
  {
  }

  lemma PrefixSingle(p: seq<string>, segs: seq<string>)
    requires |p| > 0 && |segs| == 1 && p[0] == segs[0]
    ensures IsPrefix(p, segs) <==> |p| == 1
  {
  }

  /** A path that leads to the written field starts with the same segment. */
  lemma PrefixHead(segs: seq<string>, p: seq<string>)
    requires |segs| > 0 && IsPrefix(segs, p)
    ensures p[0] == segs[0]
  {
  }

  /**
   * A write of a scalar of the same kind changes nothing else: every path
   * that neither leads to the written field nor goes below it resolves as
   * before. A path going below it fails before and after, and its error
   * carries the field's value, so the old value before and the new one after.
   */
  lemma {:induction false} AssignFrame(p: seq<string>, segs: seq<string>, source: Val, x: Val)
    requires SegmentsNoPanic(segs, source) && ResolveSegments(segs, source).Ok?
    requires SegmentsNoPanic(p, source) && !IsPrefix(p, segs)
    requires KindOf(x) == KindOf(ResolveSegments(segs, source).value) && !x.Rec? && !x.Ptr?
    ensures SegmentsNoPanic(p, Assign(segs, source, x))
    ensures ResolveSegments(p, Assign(segs, source, x)) ==
              if IsPrefix(segs, p) then Err(UnsupportedFieldValue(x)) else ResolveSegments(p, source)
    ensures IsPrefix(segs, p) ==> ResolveSegments(p, source) == Err(UnsupportedFieldValue(ResolveSegments(segs, source).value))
    decreases source, 1
  {
    var rec := if source.Ptr? then source.target.value else source;
    var i := FieldIndex(rec.fields, segs[0]).value;
    var r := Assign(segs, source, x);
    var rec' := if r.Ptr? then r.target.value else r;
    FieldIndexSameNames(rec.fields, rec'.fields, p[0]);
    if IsPrefix(segs, p) {
      PrefixHead(segs, p);
    }
    if IsUpper(p[0][0]) && FieldIndex(rec.fields, p[0]).Some? {
      var j := FieldIndex(rec.fields, p[0]).value;
      if j == i {
        if |segs| == 1 {
          LeafFieldFrame(p, segs, source, x);
        } else {
          InnerFieldFrame(p, segs, source, x);
        }
      } else {
        OtherFieldFrame(p, segs, source, x);
      }
    }
  }

  /** The frame of `AssignFrame` when `p` enters a field other than the one written. */
  lemma OtherFieldFrame(p: seq<string>, segs: seq<string>, source: Val, x: Val)
    requires SegmentsNoPanic(segs, source) && ResolveSegments(segs, source).Ok?
    requires SegmentsNoPanic(p, source) && IsUpper(p[0][0])
    requires var rec := if source.Ptr? then source.target.value else source;
             FieldIndex(rec.fields, p[0]).Some? && FieldIndex(rec.fields, p[0]) != FieldIndex(rec.fields, segs[0])
    ensures SegmentsNoPanic(p, Assign(segs, source, x))
    ensures ResolveSegments(p, Assign(segs, source, x)) == ResolveSegments(p, source)
  {
    var rec := if source.Ptr? then source.target.value else source;
    var j := FieldIndex(rec.fields, p[0]).value;
    var r := Assign(segs, source, x);
    var rec' := if r.Ptr? then r.target.value else r;
    FieldIndexSameNames(rec.fields, rec'.fields, p[0]);
    assert rec'.fields[j] == rec.fields[j];
  }

  /**
   * The frame of `AssignFrame` when `p` enters the field that was written
   * and that field is the last segment of the written path.
   */
  lemma LeafFieldFrame(p: seq<string>, segs: seq<string>, source: Val, x: Val)
    requires SegmentsNoPanic(segs, source) && ResolveSegments(segs, source).Ok? && |segs| == 1
    requires SegmentsNoPanic(p, source) && !IsPrefix(p, segs) && p[0] == segs[0]
    requires KindOf(x) == KindOf(ResolveSegments(segs, source).value) && !x.Rec? && !x.Ptr?
    ensures SegmentsNoPanic(p, Assign(segs, source, x))
    ensures IsPrefix(segs, p) && ResolveSegments(p, Assign(segs, source, x)) == Err(UnsupportedFieldValue(x))
    ensures ResolveSegments(p, source) == Err(UnsupportedFieldValue(ResolveSegments(segs, source).value))
  {
  }

  /**
   * One step of the segment walk: a path of two or more segments whose first
   * names a struct or pointer field walks the rest of the path in that field.
   */
  lemma StepSegments(p: seq<string>, source: Val, rec: Val, i: nat)
    requires rec.Rec? && (if source.Ptr? then source.target == Some(rec) else source == rec)
    requires |p| > 1 && p[0] != "" && IsUpper(p[0][0]) && FieldIndex(rec.fields, p[0]) == Some(i)
    requires rec.fields[i].value.Rec? || rec.fields[i].value.Ptr?
    ensures SegmentsNoPanic(p, source) <==> SegmentsNoPanic(p[1..], rec.fields[i].value)
    ensures SegmentsNoPanic(p, source) ==> ResolveSegments(p, source) == ResolveSegments(p[1..], rec.fields[i].value)
  {
  }

  /**
   * The frame of `AssignFrame` when `p` enters the field that was written
   * and the written path goes on below it: the rest of `p` is framed there.
   */
  lemma {:induction false} InnerFieldFrame(p: seq<string>, segs: seq<string>, source: Val, x: Val)
    requires SegmentsNoPanic(segs, source) && ResolveSegments(segs, source).Ok? && |segs| > 1
    requires SegmentsNoPanic(p, source) && !IsPrefix(p, segs) && p[0] == segs[0]
    requires KindOf(x) == KindOf(ResolveSegments(segs, source).value) && !x.Rec? && !x.Ptr?
    ensures SegmentsNoPanic(p, Assign(segs, source, x))
    ensures ResolveSegments(p, Assign(segs, source, x)) ==
              if IsPrefix(segs, p) then Err(UnsupportedFieldValue(x)) else ResolveSegments(p, source)
    ensures IsPrefix(segs, p) ==> ResolveSegments(p, source) == Err(UnsupportedFieldValue(ResolveSegments(segs, source).value))
    decreases source, 0
  {
    var rec := if source.Ptr? then source.target.value else source;
    var i := FieldIndex(rec.fields, segs[0]).value;
    var f := rec.fields[i].value;
    var r := Assign(segs, source, x);
    var rec' := if r.Ptr? then r.target.value else r;
    FieldIndexSameNames(rec.fields, rec'.fields, p[0]);
    PrefixTail(p, segs);
    PrefixTail(segs, p);
    var f' := Assign(segs[1..], f, x);
    assert rec'.fields[i].value == f';
    StepSegments(segs, source, rec, i);
    StepSegments(p, source, rec, i);
    StepSegments(p, r, rec', i);
    AssignFrame(p[1..], segs[1..], f, x);
  }

  /** After a setter succeeds, `Get` on the same dotted path returns the value written. */
  lemma SetThenGet(name: string, source: Val, x: Val)
    requires SegmentsNoPanic(Split(name, Dot), source) && ResolveSegments(Split(name, Dot), source).Ok?
    ensures ResolveNoPanic(name, Assign(Split(name, Dot), source, x), Dot, Dot)
    ensures Resolve(name, Assign(Split(name, Dot), source, x), Dot, Dot) == Ok(x)
  {
    AssignThenResolve(Split(name, Dot), source, x);
    ResolveBySegments(name, Assign(Split(name, Dot), source, x), Dot);
  }

  /**
   * After a setter succeeds, `Get` on every other dotted path that neither
   * leads to the written field nor goes below it returns what it returned
   * before; one going below it fails with the written value where it failed
   * with the old one.
   */
  lemma SetLeavesOthers(q: string, name: string, source: Val, x: Val)
    requires SegmentsNoPanic(Split(name, Dot), source) && ResolveSegments(Split(name, Dot), source).Ok?
    requires KindOf(x) == KindOf(ResolveSegments(Split(name, Dot), source).value) && !x.Rec? && !x.Ptr?
    requires ResolveNoPanic(q, source, Dot, Dot) && !IsPrefix(Split(q, Dot), Split(name, Dot))
    ensures ResolveNoPanic(q, Assign(Split(name, Dot), source, x), Dot, Dot)
    ensures Resolve(q, Assign(Split(name, Dot), source, x), Dot, Dot) ==
              if IsPrefix(Split(name, Dot), Split(q, Dot)) then Err(UnsupportedFieldValue(x)) else Resolve(q, source, Dot, Dot)
    ensures IsPrefix(Split(name, Dot), Split(q, Dot)) ==>
              Resolve(q, source, Dot, Dot) == Err(UnsupportedFieldValue(ResolveSegments(Split(name, Dot), source).value))
  {
    ResolveBySegments(q, source, Dot);
    AssignFrame(Split(q, Dot), Split(name, Dot), source, x);
    ResolveBySegments(q, Assign(Split(name, Dot), source, x), Dot);
  }

  /** The kinds `reflect.Value.SetInt` accepts: int, int64 and, by their reflect.Kind numbers, int8, int16 and int32. */
  predicate SignedIntKind(k: Kind) {
    k in {KInt, KInt64, KOther(3), KOther(4), KOther(5)}
  }

  /** The value `SetInt` leaves in a signed integer field `prev` when writing `n`. */
  function IntWritten(prev: Val, n: int): (r: Val)
    requires SignedIntKind(KindOf(prev))
    ensures KindOf(r) == KindOf(prev)
    ensures prev.IntV? ==> r == IntV(n)
    ensures prev.Int64V? ==> r == Int64V(n)
    ensures prev.Other? ==> r == prev
  {
    match prev
    case IntV(_) => IntV(n)
    case Int64V(_) => Int64V(n)
    case _ => prev
  }

  /** The caller's variable, holding the value handed to the setters. */
  class Variable {
    var value: Val

    constructor (v: Val)
      ensures value == v
    {
      value := v;
    }

    /**
     * `SetString`: the error of `getValueOf`, or "cannot be updated" when the
     * field is not settable, and the value unchanged; otherwise the field is
     * overwritten. A non-string field panics in `SetString`, hence the
     * precondition.
     */
    method SetString(name: string, s: string) returns (err: Option<Error>)
      requires SegmentsNoPanic(Split(name, Dot), value)
      requires ResolveSegments(Split(name, Dot), value).Ok? && CanSet(Split(name, Dot), value) ==> ResolveSegments(Split(name, Dot), value).value.Str?
      modifies this
      ensures old(ResolveSegments(Split(name, Dot), value)).Err? ==> err == Some(old(ResolveSegments(Split(name, Dot), value)).error) && value == old(value)
      ensures old(ResolveSegments(Split(name, Dot), value)).Ok? && !old(CanSet(Split(name, Dot), value)) ==>
                err == Some(CannotBeUpdated) && value == old(value)
      ensures old(ResolveSegments(Split(name, Dot), value)).Ok? && old(CanSet(Split(name, Dot), value)) ==>
                err.None? && value == Assign(Split(name, Dot), old(value), Str(s))
    {
      ResolveBySegments(name, value, Dot);
      var f := Resolve(name, value, Dot, Dot);
      if f.Err? {
        return Some(f.error);
      }
      if !CanSet(Split(name, Dot), value) {
        return Some(CannotBeUpdated);
      }
      value := Assign(Split(name, Dot), value, Str(s));
      return None;
    }

    /**
     * `SetInt64`: the error of `getValueOf`, or the signed integer field
     * overwritten. `SetInt` panics on a field that is not settable or not a
     * signed integer, hence the precondition. An int8, int16 or int32 field
     * holds no number in this model, so writing one leaves it as it was.
     */
    method SetInt64(name: string, n: int) returns (err: Option<Error>)
      requires SegmentsNoPanic(Split(name, Dot), value)
      requires ResolveSegments(Split(name, Dot), value).Ok? ==>
                 CanSet(Split(name, Dot), value) && SignedIntKind(KindOf(ResolveSegments(Split(name, Dot), value).value))
      modifies this
      ensures old(ResolveSegments(Split(name, Dot), value)).Err? ==> err == Some(old(ResolveSegments(Split(name, Dot), value)).error) && value == old(value)
      ensures old(ResolveSegments(Split(name, Dot), value)).Ok? ==>
                err.None? &&
                value == Assign(Split(name, Dot), old(value), IntWritten(old(ResolveSegments(Split(name, Dot), value)).value, n))
    {
      ResolveBySegments(name, value, Dot);
      var f := Resolve(name, value, Dot, Dot);
      if f.Err? {
        return Some(f.error);
      }
      value := Assign(Split(name, Dot), value, IntWritten(f.value, n));
      return None;
    }

    /**
     * `SetFloat64`: the error of `getValueOf`, or the float32 or float64
     * field overwritten. `SetFloat` panics on a field that is not settable
     * or not a float, hence the precondition.
     */
    method SetFloat64(name: string, t: FloatToken) returns (err: Option<Error>)
      requires SegmentsNoPanic(Split(name, Dot), value)
      requires ResolveSegments(Split(name, Dot), value).Ok? ==>
                 CanSet(Split(name, Dot), value) && KindOf(ResolveSegments(Split(name, Dot), value).value) in {KFloat32, KFloat64}
      modifies this
      ensures old(ResolveSegments(Split(name, Dot), value)).Err? ==> err == Some(old(ResolveSegments(Split(name, Dot), value)).error) && value == old(value)
      ensures old(ResolveSegments(Split(name, Dot), value)).Ok? ==>
                err.None? &&
                value == Assign(Split(name, Dot), old(value),
                                if old(ResolveSegments(Split(name, Dot), value)).value.F32? then F32(t) else F64(t))
    {
      ResolveBySegments(name, value, Dot);
      var f := Resolve(name, value, Dot, Dot);
      if f.Err? {
        return Some(f.error);
      }
      value := Assign(Split(name, Dot), value, if f.value.F32? then F32(t) else F64(t));
      return None;
    }

    /**
     * `SetBool`: the error of `getValueOf`, or the bool field overwritten.
     * `SetBool` panics on a field that is not settable or not a bool, hence
     * the precondition.
     */
    method SetBool(name: string, b: bool) returns (err: Option<Error>)
      requires SegmentsNoPanic(Split(name, Dot), value)
      requires ResolveSegments(Split(name, Dot), value).Ok? ==>
                 CanSet(Split(name, Dot), value) && ResolveSegments(Split(name, Dot), value).value.BoolV?
      modifies this
      ensures old(ResolveSegments(Split(name, Dot), value)).Err? ==> err == Some(old(ResolveSegments(Split(name, Dot), value)).error) && value == old(value)
      ensures old(ResolveSegments(Split(name, Dot), value)).Ok? ==> err.None? && value == Assign(Split(name, Dot), old(value), BoolV(b))
    {
      ResolveBySegments(name, value, Dot);
      var f := Resolve(name, value, Dot, Dot);
      if f.Err? {
        return Some(f.error);
      }
      value := Assign(Split(name, Dot), value, BoolV(b));
      return None;
    }
  }

  /**
   * `CanSet` on the field the walk reached: the struct holding it must have
   * been reached by dereferencing a pointer. A top-level field is settable
   * exactly when the root was passed as a pointer; a deeper one exactly when
   * the path without its last segment leads to a pointer field.
   */
  function CanSet(segs: seq<string>, source: Val): (r: bool)
    requires SegmentsNoPanic(segs, source) && ResolveSegments(segs, source).Ok?
    ensures |segs| == 1 ==> (r <==> source.Ptr?)
    ensures |segs| > 1 ==>
              && SegmentsNoPanic(segs[..|segs| - 1], source)
              && ResolveSegments(segs[..|segs| - 1], source).Ok?
              && (r <==> ResolveSegments(segs[..|segs| - 1], source).value.Ptr?)
    decreases source
  {
    var rec := if source.Ptr? then source.target.value else source;
    var i := FieldIndex(rec.fields, segs[0]).value;
    if |segs| == 1 then source.Ptr?
    else
      assert |segs| > 2 ==> segs[..|segs| - 1][1..] == segs[1..][..|segs| - 2];
      CanSet(segs[1..], rec.fields[i].value)
  }
}
