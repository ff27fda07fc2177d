/**
 * The `Surfer` of the current package (pkg/dataq.go): its separator
 * configuration and the flattening of a record into a map from path to
 * value.
 */
module Dataq {
  import opened Wrappers
  import opened Text
  import opened Values
  import opened Helpers

  const DefaultSep := "."

  /** A `SurferOption`; `WithSep(sep)` sets the separator. */
  datatype SurferOption = WithSep(sep: string)

  /** The separator after running the options in order, starting from `sep`. */
  function ApplyOptions(sep: string, opts: seq<SurferOption>): string
    decreases |opts|
  {
    if opts == [] then sep else ApplyOptions(opts[0].sep, opts[1..])
  }

  /** Running the options in order leaves the separator of the last `WithSep`. */
  lemma {:induction false} LastOptionWins(sep: string, opts: seq<SurferOption>)
    ensures ApplyOptions(sep, opts) == if opts == [] then sep else opts[|opts| - 1].sep
    decreases |opts|
  {
    if opts != [] {
      LastOptionWins(opts[0].sep, opts[1..]);
    }
  }

  /** The keys of `m` that lie in `keys`, each prefixed with `prefix`. */
  function PrefixedOn(prefix: string, m: map<string, Val>, keys: set<string>): map<string, Val>
  {
    assert forall k1, k2 :: prefix + k1 == prefix + k2 ==> k1 == k2 by {
      forall k1, k2 | prefix + k1 == prefix + k2 ensures k1 == k2 {
        assert k1 == (prefix + k1)[|prefix|..];
      }
    }
    map k | k in keys && k in m :: prefix + k := m[k]
  }

  lemma PrefixedOnAt(prefix: string, m: map<string, Val>, keys: set<string>, k: string)
    requires k in keys && k in m
    ensures prefix + k in PrefixedOn(prefix, m, keys)
    ensures PrefixedOn(prefix, m, keys)[prefix + k] == m[k]
  {
    forall k' | k' in keys && k' in m && prefix + k' == prefix + k ensures k' == k {
      assert k' == (prefix + k')[|prefix|..];
    }
  }

  lemma PrefixedOnInv(prefix: string, m: map<string, Val>, keys: set<string>, q: string)
    requires q in PrefixedOn(prefix, m, keys)
    ensures |prefix| <= |q| && q == prefix + q[|prefix|..]
    ensures q[|prefix|..] in keys && q[|prefix|..] in m
    ensures PrefixedOn(prefix, m, keys)[q] == m[q[|prefix|..]]
  {
    var k :| k in keys && k in m && q == prefix + k;
    assert q[|prefix|..] == k;
  }

  /** Adding one key to the prefixed keys is one map update. */
  lemma PrefixedOnAdd(prefix: string, m: map<string, Val>, keys: set<string>, k: string)
    requires k in m
    ensures PrefixedOn(prefix, m, keys + {k}) == PrefixedOn(prefix, m, keys)[prefix + k := m[k]]
  {
    var a := PrefixedOn(prefix, m, keys + {k});
    var b := PrefixedOn(prefix, m, keys)[prefix + k := m[k]];
    forall q | q in a ensures q in b && a[q] == b[q] {
      PrefixedOnInv(prefix, m, keys + {k}, q);
      if q != prefix + k {
        PrefixedOnAt(prefix, m, keys, q[|prefix|..]);
      }
    }
    forall q | q in b ensures q in a {
      if q != prefix + k {
        PrefixedOnInv(prefix, m, keys, q);
        PrefixedOnAt(prefix, m, keys + {k}, q[|prefix|..]);
      } else {
        PrefixedOnAt(prefix, m, keys + {k}, k);
      }
    }
  }

  /**
   * The inputs on which `GetFlatData` does not panic: every field name it
   * checks is non-empty, and it never asks an exported struct-valued field
   * whether it is nil. Fields after one whose flattening fails are never
   * looked at, so nothing is asked of them.
   */
  ghost predicate FlattenNoPanic(source: Val, sep: string)
    decreases source, 2, 0
  {
    var obj := if source.Ptr? then source.target else Some(source);
    obj.Some? && obj.value.Rec? ==> FoldNoPanic(obj.value, 0, sep)
  }

  /** The fields from index `i` on that the loop reaches do not panic. */
  ghost predicate FoldNoPanic(rec: Val, i: nat, sep: string)
    requires rec.Rec? && i <= |rec.fields|
    decreases rec, 0, |rec.fields| - i
  {
    || i == |rec.fields|
    || (&& FieldNoPanic(rec.fields[i].name, rec.fields[i].value, sep)
        && (FieldEntries(rec.fields[i].name, rec.fields[i].value, sep).Ok? ==> FoldNoPanic(rec, i + 1, sep)))
  }

  /**
   * The specification of `GetFlatData`: a struct (after one dereference) is
   * flattened field by field; a map source yields nothing, because the source
   * hands its `reflect.Value` wrapper, a struct, to `getFieldsFromMap`; any
   * other source is an error.
   */
  function Flatten(source: Val, sep: string): Res<map<string, Val>>
    requires FlattenNoPanic(source, sep)
    decreases source, 4, 0
  {
    var obj := if source.Ptr? then source.target else Some(source);
    if obj.Some? && obj.value.Rec? then FlattenFields(obj.value, 0, sep, map[])
    else if obj.Some? && obj.value.MapV? then Ok(map[])
    else Err(UnhandledData)
  }

  /**
   * The fields from index `i` on, added to `acc` one after the other; an
   * error below aborts.
   */
  function FlattenFields(rec: Val, i: nat, sep: string, acc: map<string, Val>): Res<map<string, Val>>
    requires rec.Rec? && i <= |rec.fields| && FoldNoPanic(rec, i, sep)
    decreases rec, 1, |rec.fields| - i
  {
    if i == |rec.fields| then Ok(acc)
    else match FieldEntries(rec.fields[i].name, rec.fields[i].value, sep)
      case Err(e) => Err(e)
      case Ok(added) => FlattenFields(rec, i + 1, sep, acc + added)
  }

  /** What `GetFlatData` may ask of one field without panicking. */
  ghost predicate FieldNoPanic(name: string, f: Val, sep: string)
    decreases f, 3, 0
  {
    && name != ""
    && (Exported(name) ==> !f.Rec? && (f.Ptr? && f.target.Some? ==> FlattenNoPanic(f, sep)))
  }

  /**
   * The entries one field adds: a float64, string, bool, int or float32 field
   * under its own name; each entry `k` of a non-nil pointer field's own
   * flattening under `name + sep + k`; each listed key `k` of a non-nil map
   * field under `name + sep + k`. Unexported fields, nil pointers and maps,
   * and other kinds add nothing.
   */
  function FieldEntries(name: string, f: Val, sep: string): Res<map<string, Val>>
    requires FieldNoPanic(name, f, sep)
    decreases f, 5, 0
  {
    if !Exported(name) then Ok(map[])
    else match f
      case Ptr(None) => Ok(map[])
      case Ptr(Some(_)) =>
        (match Flatten(f, sep)
         case Err(e) => Err(e)
         case Ok(sub) => Ok(PrefixedOn(name + sep, sub, sub.Keys)))
      case MapV(_, _, None) => Ok(map[])
      case MapV(_, _, Some(es)) => Ok(PrefixedOn(name + sep, es, if ListsKeys(f) then es.Keys else {}))
      case Rec(_) => assert false; Err(UnhandledData)  // IsNil panics on a struct
      case _ => if IsLeaf(f) then Ok(map[name := f]) else Ok(map[])
  }

  /** A `Surfer`: the separator used to split input paths and join output paths. */
  class Surfer {
    var sep: string

    /** `NewSurfer`: the default separator, then each option in order. */
    constructor (opts: seq<SurferOption>)
      ensures sep == ApplyOptions(DefaultSep, opts)
    {
      var s := DefaultSep;
      var i := 0;
      while i < |opts|
        invariant 0 <= i <= |opts|
        invariant ApplyOptions(DefaultSep, opts) == ApplyOptions(s, opts[i..])
      {
        assert opts[i..][1..] == opts[i + 1..];
        s := opts[i].sep;  // running the option's closure on the surfer
        i := i + 1;
      }
      sep := s;
    }

    /** `GetFlatData`, proved to compute `Flatten`. */
    method GetFlatData(source: Val) returns (data: map<string, Val>, err: Option<Error>)
      requires FlattenNoPanic(source, sep)
      ensures err.None? ==> Flatten(source, sep) == Ok(data)
      ensures err.Some? ==> Flatten(source, sep) == Err(err.value)
      decreases source
    {
      data := map[];
      var obj := if source.Ptr? then source.target else Some(source);
      if obj.Some? && obj.value.Rec? {
        var rec := obj.value;
        var fs := rec.fields;
        var i := 0;
        while i < |fs|
          invariant 0 <= i <= |fs|
          invariant FoldNoPanic(rec, i, sep)
          invariant Flatten(source, sep) == FlattenFields(rec, i, sep, data)
        {
          var name := fs[i].name;
          var f := fs[i].value;
          assert FieldNoPanic(name, f, sep);
          assert data + map[] == data;  // a field that adds nothing
          if CheckFieldName(name) {
            match f {
              case Ptr(t) =>
                if t.Some? {
                  var sub, e := GetFlatData(f);
                  if e.Some? {
                    return data, e;
                  }
                  data := MergePrefixed(data, name + sep, sub);
                }
              case Rec(_) =>
                assert false;  // IsNil panics on a struct
              case MapV(_, _, es) =>
                if es.Some? {
                  data := MergeMapField(data, name + sep, f);
                }
              case F64(_) | Str(_) | BoolV(_) | IntV(_) | F32(_) =>
                assert data[name := f] == data + map[name := f];
                data := data[name := f];
              case Int64V(_) | Other(_) =>  // not handled: skipped
            }
          }
          i := i + 1;
        }
        return data, None;
      } else if obj.Some? && obj.value.MapV? {
        // The source passes the reflect.Value wrapper, itself a struct.
        var wrapper := Rec([]);
        var keys := GetFieldsFromMap(wrapper);
        assert keys == [];  // so the loop over the keys does not run
        return data, None;
      } else {
        return data, Some(UnhandledData);
      }
    }
  }

  /** The merge loop of `GetFlatData`: every entry of `sub` under `prefix`. */
  method MergePrefixed(data: map<string, Val>, prefix: string, sub: map<string, Val>) returns (r: map<string, Val>)
    ensures r == data + PrefixedOn(prefix, sub, sub.Keys)
  {
    r := data;
    var ks := sub.Keys;
    while ks != {}
      invariant ks <= sub.Keys
      invariant r == data + PrefixedOn(prefix, sub, sub.Keys - ks)
      decreases ks
    {
      var k :| k in ks;
      ghost var done := sub.Keys - ks;
      PrefixedOnAdd(prefix, sub, done, k);
      UnionUpdate(data, PrefixedOn(prefix, sub, done), prefix + k, sub[k]);
      assert sub.Keys - (ks - {k}) == done + {k};
      r := r[prefix + k := sub[k]];
      ks := ks - {k};
    }
  }

  /**
   * The map-field loop of `GetFlatData`: each key listed by
   * `getFieldsFromMap` under `prefix`, with the value `getValueFromMap` finds.
   */
  method MergeMapField(data: map<string, Val>, prefix: string, f: Val) returns (r: map<string, Val>)
    requires f.MapV? && f.entries.Some?
    ensures r == data + PrefixedOn(prefix, f.entries.value, if ListsKeys(f) then f.entries.value.Keys else {})
  {
    var keys := GetFieldsFromMap(f);
    r := MergeKeys(data, prefix, f, keys);
    ListedAll(keys);
    assert Listed(keys, |keys|) == if ListsKeys(f) then f.entries.value.Keys else {};
  }

  /** The loop of `MergeMapField` over the listed keys. */
  method MergeKeys(data: map<string, Val>, prefix: string, f: Val, keys: seq<string>) returns (r: map<string, Val>)
    requires f.MapV? && f.entries.Some? && (keys != [] ==> KeysReadable(f))
    requires forall k :: k in keys ==> k in f.entries.value
    ensures r == data + PrefixedOn(prefix, f.entries.value, Listed(keys, |keys|))
  {
    var es := f.entries.value;
    r := data;
    var j := 0;
    while j < |keys|
      invariant 0 <= j <= |keys|
      invariant r == data + PrefixedOn(prefix, es, Listed(keys, j))
    {
      var v := GetValueFromMap(keys[j], f);
      assert keys[j] in es;
      ListedStep(keys, j);
      PrefixedOnAdd(prefix, es, Listed(keys, j), keys[j]);
      UnionUpdate(data, PrefixedOn(prefix, es, Listed(keys, j)), prefix + keys[j], es[keys[j]]);
      r := r[prefix + keys[j] := v.value];
      j := j + 1;
    }
  }

  /** The keys among the first `j` of a list. */
  function Listed(keys: seq<string>, j: nat): set<string>
    requires j <= |keys|
  {
    set k | k in keys[..j]
  }

  lemma ListedStep(keys: seq<string>, j: nat)
    requires j < |keys|
    ensures Listed(keys, j + 1) == Listed(keys, j) + {keys[j]}
  {
    assert keys[..j + 1] == keys[..j] + [keys[j]];
  }

  lemma ListedAll(keys: seq<string>)
    ensures Listed(keys, |keys|) == set k | k in keys
  {
    assert keys[..|keys|] == keys;
  }

  lemma UnionUpdate(a: map<string, Val>, b: map<string, Val>, k: string, v: Val)
    ensures (a + b)[k := v] == a + b[k := v]
  {
  }
}
