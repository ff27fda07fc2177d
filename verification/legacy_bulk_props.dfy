/**
 * What the root package's bulk traversals (dataq.go) promise of each other:
 * `GetFlatData` has exactly the keys `GetVars` lists, which are distinct, and
 * each key resolves through `Get` to the value stored under it; and where
 * the root package and the current one overlap, they agree.
 */
module LegacyBulkProps {
  import opened Wrappers
  import opened Text
  import opened Values
  import opened Dataq
  import opened Legacy
  import opened LegacyBulk
  import Helpers
  import HelpersProps
  import LegacyProps

  function Elems(s: seq<string>): set<string> {
    set x | x in s
  }

  /** Prefixing the names of a list and the keys of a map alike keeps them the same set. */
  lemma PrefixedElems(prefix: string, names: seq<string>, m: map<string, Val>)
    requires Elems(names) == m.Keys
    ensures Elems(Prefixed(prefix, names)) == PrefixedOn(prefix, m, m.Keys).Keys
  {
    var l := Prefixed(prefix, names);
    var p := PrefixedOn(prefix, m, m.Keys);
    forall q | q in Elems(l) ensures q in p {
      var j :| 0 <= j < |l| && l[j] == q;
      assert names[j] in Elems(names);
      PrefixedOnAt(prefix, m, m.Keys, names[j]);
    }
    forall q | q in p ensures q in Elems(l) {
      PrefixedOnInv(prefix, m, m.Keys, q);
      var k := q[|prefix|..];
      var j :| 0 <= j < |names| && names[j] == k;
      assert l[j] == q;
    }
  }

  /**
   * `GetVars` and `GetFlatData` fail on the same inputs with the same error,
   * and otherwise the listed paths are exactly the keys of the flat data.
   */
  lemma {:induction false} VarsMatchFlatData(source: Val)
    requires BulkNoPanic(source)
    ensures Vars(source).Err? <==> FlatData(source).Err?
    ensures Vars(source).Err? ==> FlatData(source) == Err(Vars(source).error)
    ensures Vars(source).Ok? ==> Elems(Vars(source).value) == FlatData(source).value.Keys
    decreases source, 1
  {
    var obj := if source.Ptr? then source.target else Some(source);
    if obj.Some? && obj.value.Rec? {
      FoldMatch(obj.value, 0, [], map[]);
    }
  }

  lemma {:induction false} FoldMatch(rec: Val, i: nat, names: seq<string>, data: map<string, Val>)
    requires rec.Rec? && i <= |rec.fields| && FieldsOk(rec)
    requires Elems(names) == data.Keys
    ensures VarsFields(rec, i, names).Err? <==> DataFields(rec, i, data).Err?
    ensures VarsFields(rec, i, names).Err? ==> DataFields(rec, i, data) == Err(VarsFields(rec, i, names).error)
    ensures VarsFields(rec, i, names).Ok? ==> Elems(VarsFields(rec, i, names).value) == DataFields(rec, i, data).value.Keys
    decreases rec, 0, |rec.fields| - i
  {
    if i < |rec.fields| {
      var name := rec.fields[i].name;
      var f := rec.fields[i].value;
      assert FieldOk(name, f);
      FieldMatch(name, f);
      var v := FieldVars(name, f);
      if v.Ok? {
        var d := FieldData(name, f).value;
        assert Elems(names + v.value) == (data + d).Keys;
        FoldMatch(rec, i + 1, names + v.value, data + d);
      }
    }
  }

  lemma {:induction false} FieldMatch(name: string, f: Val)
    requires FieldOk(name, f)
    ensures FieldVars(name, f).Err? <==> FieldData(name, f).Err?
    ensures FieldVars(name, f).Err? ==> FieldData(name, f) == Err(FieldVars(name, f).error)
    ensures FieldVars(name, f).Ok? ==> Elems(FieldVars(name, f).value) == FieldData(name, f).value.Keys
    decreases f, 2
  {
    if Exported(name) && (f.Rec? || f.Ptr?) {
      VarsMatchFlatData(f);
      if Vars(f).Ok? {
        PrefixedElems(name + Dot, Vars(f).value, FlatData(f).value);
      }
    } else if Exported(name) && IsLeaf(f) {
      assert Elems([name]) == {name};
    }
  }

  /** The first "."-separated segment of a path. */
  function Head(q: string): string {
    Split(q, Dot)[0]
  }

  /** Every path a field contributes starts with that field's name. */
  ghost predicate HeadedBy(names: seq<string>, name: string) {
    forall k :: 0 <= k < |names| ==> Head(names[k]) == name
  }

  /**
   * With distinct field names in which "." does not occur, the paths
   * `GetVars` lists are distinct.
   */
  lemma {:induction false} VarsDistinct(source: Val)
    requires BulkNoPanic(source) && WellFormed(source) && NamesSepFree(source, Dot)
    requires Vars(source).Ok?
    ensures NoDuplicates(Vars(source).value)
    decreases source, 1
  {
    var obj := if source.Ptr? then source.target else Some(source);
    FoldDistinct(obj.value, 0, []);
  }

  lemma {:induction false} FoldDistinct(rec: Val, i: nat, acc: seq<string>)
    requires rec.Rec? && i <= |rec.fields| && FieldsOk(rec) && WellFormed(rec) && NamesSepFree(rec, Dot)
    requires NoDuplicates(acc)
    requires forall k :: 0 <= k < |acc| ==>
               FieldIndex(rec.fields, Head(acc[k])).Some? && FieldIndex(rec.fields, Head(acc[k])).value < i
    requires VarsFields(rec, i, acc).Ok?
    ensures NoDuplicates(VarsFields(rec, i, acc).value)
    decreases rec, 0, |rec.fields| - i
  {
    if i < |rec.fields| {
      var name := rec.fields[i].name;
      var f := rec.fields[i].value;
      assert FieldOk(name, f);
      var added := FieldVars(name, f).value;
      FieldDistinct(rec, i);
      HelpersProps.FieldIndexDistinct(rec.fields, i);
      var acc' := acc + added;
      forall k1, k2 | 0 <= k1 < k2 < |acc'| ensures acc'[k1] != acc'[k2] {
        if k1 < |acc| && k2 >= |acc| {
          assert Head(acc'[k2]) == name;
        }
      }
      FoldDistinct(rec, i + 1, acc');
    }
  }

  /** The paths of one field are distinct and all start with its name. */
  lemma {:induction false} FieldDistinct(rec: Val, i: nat)
    requires rec.Rec? && i < |rec.fields| && FieldsOk(rec) && WellFormed(rec) && NamesSepFree(rec, Dot)
    requires FieldVars(rec.fields[i].name, rec.fields[i].value).Ok?
    ensures NoDuplicates(FieldVars(rec.fields[i].name, rec.fields[i].value).value)
    ensures HeadedBy(FieldVars(rec.fields[i].name, rec.fields[i].value).value, rec.fields[i].name)
    decreases rec, 0, 0
  {
    var name := rec.fields[i].name;
    var f := rec.fields[i].value;
    assert FieldOk(name, f);
    if !Exported(name) {
      return;
    }
    assert SepFree(name, Dot) && WellFormed(f) && NamesSepFree(f, Dot);
    if f.Rec? || f.Ptr? {
      VarsDistinct(f);
      var sub := Vars(f).value;
      var l := Prefixed(name + Dot, sub);
      forall k | 0 <= k < |l| ensures Head(l[k]) == name {
        SplitCons(name, Dot, sub[k]);
        assert l[k] == name + Dot + sub[k];
      }
      forall k1, k2 | 0 <= k1 < k2 < |l| ensures l[k1] != l[k2] {
        assert sub[k1] == l[k1][|name + Dot|..];
        assert sub[k2] == l[k2][|name + Dot|..];
      }
    } else if IsLeaf(f) {
      SplitSepFree(name, Dot);
    }
  }

  /** Every entry of `m` resolves, through the root `Get`, to the value stored under it. */
  ghost predicate Resolves(m: map<string, Val>, source: Val) {
    forall q :: q in m ==> ResolveNoPanic(q, source, Dot, Dot) && Resolve(q, source, Dot, Dot) == Ok(m[q])
  }

  ghost predicate BulkReady(source: Val) {
    BulkNoPanic(source) && WellFormed(source) && NamesSepFree(source, Dot)
  }

  /**
   * Round trip of the root package: with field names free of ".", every key
   * of `GetFlatData(source)` resolves through `Get` to the value stored
   * under it.
   */
  lemma {:induction false} LegacyRoundTrip(source: Val)
    requires BulkReady(source) && FlatData(source).Ok?
    ensures Resolves(FlatData(source).value, source)
    decreases source, 1
  {
    var obj := if source.Ptr? then source.target else Some(source);
    DataResolves(source, obj.value, 0, map[]);
  }

  lemma {:induction false} DataResolves(source: Val, rec: Val, i: nat, acc: map<string, Val>)
    requires BulkReady(source) && HelpersProps.DerefIs(source, rec)
    requires rec.Rec? && i <= |rec.fields| && FieldsOk(rec)
    requires Resolves(acc, source) && DataFields(rec, i, acc).Ok?
    ensures Resolves(DataFields(rec, i, acc).value, source)
    decreases rec, 0, |rec.fields| - i
  {
    if i < |rec.fields| {
      assert FieldOk(rec.fields[i].name, rec.fields[i].value);
      var added := FieldData(rec.fields[i].name, rec.fields[i].value).value;
      FieldResolves(source, rec, i);
      forall q | q in acc + added
        ensures ResolveNoPanic(q, source, Dot, Dot) && Resolve(q, source, Dot, Dot) == Ok((acc + added)[q])
      {
      }
      DataResolves(source, rec, i + 1, acc + added);
    }
  }

  lemma {:induction false} FieldResolves(source: Val, rec: Val, i: nat)
    requires BulkReady(source) && HelpersProps.DerefIs(source, rec)
    requires rec.Rec? && i < |rec.fields| && FieldsOk(rec)
    requires FieldData(rec.fields[i].name, rec.fields[i].value).Ok?
    ensures Resolves(FieldData(rec.fields[i].name, rec.fields[i].value).value, source)
    decreases rec, 0, 0
  {
    var name := rec.fields[i].name;
    var f := rec.fields[i].value;
    assert FieldOk(name, f) && WellFormed(rec) && NamesSepFree(rec, Dot);
    if !Exported(name) {
      return;
    }
    assert SepFree(name, Dot) && WellFormed(f) && NamesSepFree(f, Dot);
    if f.Rec? || f.Ptr? {
      LegacyRoundTrip(f);
      var sub := FlatData(f).value;
      var added := PrefixedOn(name + Dot, sub, sub.Keys);
      forall q | q in added
        ensures ResolveNoPanic(q, source, Dot, Dot) && Resolve(q, source, Dot, Dot) == Ok(added[q])
      {
        PrefixedOnInv(name + Dot, sub, sub.Keys, q);
        var k := q[|name + Dot|..];
        assert q == name + Dot + k;
        StepInto(source, rec, i, k);
      }
    } else if IsLeaf(f) {
      SplitSepFree(name, Dot);
      HelpersProps.FieldIndexDistinct(rec.fields, i);
    }
  }

  /** Below a struct or pointer field, the root walk continues with the rest of the path. */
  lemma StepInto(source: Val, rec: Val, i: nat, rest: string)
    requires HelpersProps.DerefIs(source, rec) && rec.Rec? && i < |rec.fields| && DistinctNames(rec.fields)
    requires Exported(rec.fields[i].name) && SepFree(rec.fields[i].name, Dot)
    requires rec.fields[i].value.Rec? || rec.fields[i].value.Ptr?
    requires ResolveNoPanic(rest, rec.fields[i].value, Dot, Dot)
    ensures ResolveNoPanic(rec.fields[i].name + Dot + rest, source, Dot, Dot)
    ensures Resolve(rec.fields[i].name + Dot + rest, source, Dot, Dot) == Resolve(rest, rec.fields[i].value, Dot, Dot)
  {
    HelpersProps.EnterField(rec, i, Dot, rest);
  }

  /**
   * The values on which both generations flatten alike: no map at the root,
   * and no exported field that is a nil pointer or a map, at any depth.
   */
  ghost predicate PlainData(v: Val)
    decreases v, 1
  {
    var obj := if v.Ptr? then v.target else Some(v);
    && (obj.Some? ==> !obj.value.MapV?)
    && (obj.Some? && obj.value.Rec? ==> PlainFields(obj.value))
  }

  ghost predicate PlainFields(rec: Val)
    requires rec.Rec?
    decreases rec, 0
  {
    forall i :: 0 <= i < |rec.fields| ==> PlainField(rec.fields[i].name, rec.fields[i].value)
  }

  ghost predicate PlainField(name: string, f: Val)
    decreases f, 2
  {
    Exported(name) ==> f != Ptr(None) && !f.MapV? && (f.Ptr? ==> PlainData(f))
  }

  /**
   * On plain data that the current `GetFlatData` accepts without panicking,
   * it computes with separator "." exactly what the root `GetFlatData` does.
   */
  lemma {:induction false} SurferAgreesWithLegacy(source: Val)
    requires FlattenNoPanic(source, Dot) && BulkNoPanic(source) && PlainData(source)
    ensures Flatten(source, Dot) == FlatData(source)
    decreases source, 1
  {
    var obj := if source.Ptr? then source.target else Some(source);
    if obj.Some? && obj.value.Rec? {
      AgreeFold(obj.value, 0, map[]);
    }
  }

  lemma {:induction false} AgreeFold(rec: Val, i: nat, acc: map<string, Val>)
    requires rec.Rec? && i <= |rec.fields| && FoldNoPanic(rec, i, Dot) && FieldsOk(rec) && PlainFields(rec)
    ensures FlattenFields(rec, i, Dot, acc) == DataFields(rec, i, acc)
    decreases rec, 0, |rec.fields| - i
  {
    if i < |rec.fields| {
      var name := rec.fields[i].name;
      var f := rec.fields[i].value;
      assert FieldNoPanic(name, f, Dot) && FieldOk(name, f) && PlainField(name, f);
      if Exported(name) && f.Ptr? {
        SurferAgreesWithLegacy(f);
      }
      assert FieldEntries(name, f, Dot) == FieldData(name, f);
      if FieldData(name, f).Ok? {
        AgreeFold(rec, i + 1, acc + FieldData(name, f).value);
      }
    }
  }

  /**
   * An exported nil pointer field makes both root traversals fail, where the
   * current `GetFlatData` skips it.
   */
  lemma NilPointerAborts(source: Val, rec: Val, i: nat)
    requires BulkNoPanic(source) && HelpersProps.DerefIs(source, rec) && rec.Rec? && i < |rec.fields|
    requires Exported(rec.fields[i].name) && rec.fields[i].value == Ptr(None)
    ensures FlatData(source).Err? && Vars(source).Err?
    ensures FieldNoPanic(rec.fields[i].name, rec.fields[i].value, Dot) && FieldEntries(rec.fields[i].name, rec.fields[i].value, Dot) == Ok(map[])
  {
    DataFailsAt(rec, 0, map[], i);
    VarsMatchFlatData(source);
  }

  lemma {:induction false} DataFailsAt(rec: Val, i: nat, acc: map<string, Val>, j: nat)
    requires rec.Rec? && i <= j < |rec.fields| && FieldsOk(rec)
    requires FieldData(rec.fields[j].name, rec.fields[j].value).Err?
    ensures DataFields(rec, i, acc).Err?
    decreases |rec.fields| - i
  {
    if i < j {
      var d := FieldData(rec.fields[i].name, rec.fields[i].value);
      if d.Ok? {
        DataFailsAt(rec, i + 1, acc + d.value, j);
      }
    }
  }

  /**
   * Whenever the root package's `getValueOf` reaches a leaf, the current
   * package's `getValueOf` on the same path and separator reaches the same
   * leaf.
   */
  lemma {:induction false} LeafResolvesAlike(name: string, source: Val, sep: string)
    requires Helpers.NoPanic(name, source, sep) && ResolveNoPanic(name, source, sep, sep)
    requires Resolve(name, source, sep, sep).Ok? && IsLeaf(Resolve(name, source, sep, sep).value)
    ensures Helpers.GetValueOf(name, source, sep) == Resolve(name, source, sep, sep)
    decreases source
  {
    var fields := Split(name, sep);
    var obj := if source.Ptr? then source.target else Some(source);
    var i := FieldIndex(obj.value.fields, fields[0]).value;
    var f := obj.value.fields[i].value;
    if |fields| > 1 {
      LeafResolvesAlike(Join(fields[1..], sep), f, sep);
    }
  }

  /** Later fields only add keys: what `acc` holds is kept. */
  lemma {:induction false} DataFoldKeeps(rec: Val, i: nat, acc: map<string, Val>)
    requires rec.Rec? && i <= |rec.fields| && FieldsOk(rec)
    requires DataFields(rec, i, acc).Ok?
    ensures acc.Keys <= DataFields(rec, i, acc).value.Keys
    decreases |rec.fields| - i
  {
    if i < |rec.fields| {
      assert FieldOk(rec.fields[i].name, rec.fields[i].value);
      var added := FieldData(rec.fields[i].name, rec.fields[i].value).value;
      DataFoldKeeps(rec, i + 1, acc + added);
    }
  }

  /** Every field from `i` on adds its keys to the result. */
  lemma {:induction false} DataFoldIncludes(rec: Val, i: nat, acc: map<string, Val>, j: nat)
    requires rec.Rec? && i <= j < |rec.fields| && FieldsOk(rec)
    requires DataFields(rec, i, acc).Ok?
    ensures FieldOk(rec.fields[j].name, rec.fields[j].value)
    ensures FieldData(rec.fields[j].name, rec.fields[j].value).Ok?
    ensures FieldData(rec.fields[j].name, rec.fields[j].value).value.Keys <= DataFields(rec, i, acc).value.Keys
    decreases |rec.fields| - i
  {
    assert FieldOk(rec.fields[i].name, rec.fields[i].value);
    var added := FieldData(rec.fields[i].name, rec.fields[i].value).value;
    if i == j {
      DataFoldKeeps(rec, i + 1, acc + added);
    } else {
      DataFoldIncludes(rec, i + 1, acc + added, j);
    }
  }

  /** An exported scalar field appears in the root `GetFlatData` under its bare name, with its value. */
  lemma FlatDataScalarField(source: Val, rec: Val, i: nat)
    requires BulkReady(source) && HelpersProps.DerefIs(source, rec) && rec.Rec? && i < |rec.fields|
    requires Exported(rec.fields[i].name) && IsLeaf(rec.fields[i].value)
    requires FlatData(source).Ok?
    ensures rec.fields[i].name in FlatData(source).value
    ensures FlatData(source).value[rec.fields[i].name] == rec.fields[i].value
  {
    assert FieldsOk(rec) && WellFormed(rec) && NamesSepFree(rec, Dot);
    DataFoldIncludes(rec, 0, map[], i);
    LegacyRoundTrip(source);
    LegacyProps.ResolveField(source, rec, i, Dot, Dot);
  }

  /**
   * Every key `k` of an exported struct or pointer field's own flat data
   * appears as `name.k`, with the same value; that flattening succeeds.
   */
  lemma FlatDataNestedField(source: Val, rec: Val, i: nat, k: string)
    requires BulkReady(source) && HelpersProps.DerefIs(source, rec) && rec.Rec? && i < |rec.fields|
    requires Exported(rec.fields[i].name) && (rec.fields[i].value.Rec? || rec.fields[i].value.Ptr?)
    requires FlatData(source).Ok?
    ensures BulkNoPanic(rec.fields[i].value) && FlatData(rec.fields[i].value).Ok?
    ensures k in FlatData(rec.fields[i].value).value ==>
              && rec.fields[i].name + Dot + k in FlatData(source).value
              && FlatData(source).value[rec.fields[i].name + Dot + k] == FlatData(rec.fields[i].value).value[k]
  {
    var name := rec.fields[i].name;
    var f := rec.fields[i].value;
    assert FieldsOk(rec) && WellFormed(rec) && NamesSepFree(rec, Dot);
    DataFoldIncludes(rec, 0, map[], i);
    var sub := FlatData(f).value;
    if k in sub {
      PrefixedOnAt(name + Dot, sub, sub.Keys, k);
      assert SepFree(name, Dot) && WellFormed(f) && NamesSepFree(f, Dot);
      LegacyRoundTrip(source);
      LegacyRoundTrip(f);
      StepInto(source, rec, i, k);
    }
  }

  /**
   * The fields that produce a path `q`: an exported scalar field under its
   * own name, or an exported struct or pointer field under `name.`. Maps,
   * int64 fields, other kinds and unexported fields produce none.
   */
  ghost predicate ProducesPath(f: Field, q: string) {
    && Exported(f.name)
    && (|| (IsLeaf(f.value) && q == f.name)
        || ((f.value.Rec? || f.value.Ptr?) && |f.name + Dot| <= |q| && q[..|f.name + Dot|] == f.name + Dot))
  }

  lemma FieldDataProduces(f: Field, q: string)
    requires FieldOk(f.name, f.value) && FieldData(f.name, f.value).Ok?
    requires q in FieldData(f.name, f.value).value
    ensures ProducesPath(f, q)
  {
    if Exported(f.name) && (f.value.Rec? || f.value.Ptr?) {
      var sub := FlatData(f.value).value;
      PrefixedOnInv(f.name + Dot, sub, sub.Keys, q);
    }
  }

  lemma {:induction false} DataFoldProduces(rec: Val, i: nat, acc: map<string, Val>, q: string)
    requires rec.Rec? && i <= |rec.fields| && FieldsOk(rec)
    requires DataFields(rec, i, acc).Ok? && q in DataFields(rec, i, acc).value
    ensures q in acc || exists j :: i <= j < |rec.fields| && ProducesPath(rec.fields[j], q)
    decreases |rec.fields| - i
  {
    if i < |rec.fields| {
      assert FieldOk(rec.fields[i].name, rec.fields[i].value);
      var added := FieldData(rec.fields[i].name, rec.fields[i].value).value;
      DataFoldProduces(rec, i + 1, acc + added, q);
      if q in added {
        FieldDataProduces(rec.fields[i], q);
      }
    }
  }

  /** Every key of the root `GetFlatData` comes from a field that produces paths. */
  lemma FlatDataKeysProduced(source: Val, rec: Val, q: string)
    requires BulkNoPanic(source) && HelpersProps.DerefIs(source, rec) && rec.Rec?
    requires FlatData(source).Ok? && q in FlatData(source).value
    ensures exists j :: 0 <= j < |rec.fields| && ProducesPath(rec.fields[j], q)
  {
    DataFoldProduces(rec, 0, map[], q);
  }

  /**
   * `GetVars` lists an exported scalar field under its own name and each
   * path `k` of an exported struct or pointer field as `name.k`, and lists
   * nothing that no field produces.
   */
  lemma VarsListsFields(source: Val, rec: Val, i: nat, k: string)
    requires BulkReady(source) && HelpersProps.DerefIs(source, rec) && rec.Rec? && i < |rec.fields|
    requires Vars(source).Ok?
    ensures Exported(rec.fields[i].name) && IsLeaf(rec.fields[i].value) ==> rec.fields[i].name in Vars(source).value
    ensures Exported(rec.fields[i].name) && (rec.fields[i].value.Rec? || rec.fields[i].value.Ptr?) ==>
              && BulkNoPanic(rec.fields[i].value) && Vars(rec.fields[i].value).Ok?
              && (k in Vars(rec.fields[i].value).value ==> rec.fields[i].name + Dot + k in Vars(source).value)
    ensures k in Vars(source).value ==> exists j :: 0 <= j < |rec.fields| && ProducesPath(rec.fields[j], k)
  {
    var name := rec.fields[i].name;
    var f := rec.fields[i].value;
    VarsMatchFlatData(source);
    if Exported(name) && IsLeaf(f) {
      FlatDataScalarField(source, rec, i);
      assert name in Elems(Vars(source).value);
    }
    if Exported(name) && (f.Rec? || f.Ptr?) {
      FlatDataNestedField(source, rec, i, k);
      VarsMatchFlatData(f);
      if k in Vars(f).value {
        assert k in Elems(Vars(f).value);
        assert name + Dot + k in Elems(Vars(source).value);
      }
    }
    if k in Vars(source).value {
      assert k in Elems(Vars(source).value);
      FlatDataKeysProduced(source, rec, k);
    }
  }
}
