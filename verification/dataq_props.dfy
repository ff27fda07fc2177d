/**
 * What `GetFlatData` promises (pkg/dataq.go), proved of its specification
 * `Flatten`: every key it produces resolves through `getValueOf` to the value
 * stored under it, each kind of field contributes the entries it should, and
 * errors come only from pointer fields and from roots that are neither
 * structs nor maps.
 */
module DataqProps {
  import opened Wrappers
  import opened Text
  import opened Values
  import opened Helpers
  import opened Dataq
  import opened HelpersProps

  /** Every entry of `m` resolves, without panicking, to the value stored under it. */
  ghost predicate Resolves(m: map<string, Val>, source: Val, sep: string) {
    forall q :: q in m ==> NoPanic(q, source, sep) && GetValueOf(q, source, sep) == Ok(m[q])
  }

  /**
   * The conditions of the round trip: a non-empty separator that occurs in no
   * exported field name, and a value Go could have built.
   */
  ghost predicate RoundTripReady(source: Val, sep: string) {
    sep != "" && WellFormed(source) && NamesSepFree(source, sep) && FlattenNoPanic(source, sep)
  }

  /**
   * Round trip: every key of `GetFlatData(source)` resolves through
   * `getValueOf`, with the same separator, to the value stored under it.
   */
  lemma {:induction false} RoundTrip(source: Val, sep: string)
    requires RoundTripReady(source, sep)
    requires Flatten(source, sep).Ok?
    ensures Resolves(Flatten(source, sep).value, source, sep)
    decreases source, 1
  {
    var obj := if source.Ptr? then source.target else Some(source);
    if obj.Some? && obj.value.Rec? {
      FoldResolves(source, obj.value, 0, sep, map[]);
    }
  }

  lemma {:induction false} FoldResolves(source: Val, rec: Val, i: nat, sep: string, acc: map<string, Val>)
    requires RoundTripReady(source, sep) && DerefIs(source, rec)
    requires rec.Rec? && i <= |rec.fields| && FoldNoPanic(rec, i, sep)
    requires Resolves(acc, source, sep)
    requires FlattenFields(rec, i, sep, acc).Ok?
    ensures Resolves(FlattenFields(rec, i, sep, acc).value, source, sep)
    decreases rec, 0, |rec.fields| - i
  {
    if i == |rec.fields| {
      return;
    }
    var added := FieldEntries(rec.fields[i].name, rec.fields[i].value, sep).value;
    FieldEntriesResolve(source, rec, i, sep);
    ResolvesUnion(acc, added, source, sep);
    FoldResolves(source, rec, i + 1, sep, acc + added);
  }

  /** Every entry a field adds resolves to its value. */
  lemma {:induction false} FieldEntriesResolve(source: Val, rec: Val, i: nat, sep: string)
    requires RoundTripReady(source, sep) && DerefIs(source, rec)
    requires rec.Rec? && i < |rec.fields| && FieldNoPanic(rec.fields[i].name, rec.fields[i].value, sep)
    requires FieldEntries(rec.fields[i].name, rec.fields[i].value, sep).Ok?
    ensures Resolves(FieldEntries(rec.fields[i].name, rec.fields[i].value, sep).value, source, sep)
    decreases rec, 0, 0
  {
    var name := rec.fields[i].name;
    var f := rec.fields[i].value;
    assert WellFormed(rec) && NamesSepFree(rec, sep);
    if !Exported(name) {
      return;
    }
    assert SepFree(name, sep) && WellFormed(f) && NamesSepFree(f, sep);
    match f {
      case Ptr(Some(_)) =>
        RoundTrip(f, sep);
        PointerEntriesResolve(source, rec, i, sep, Flatten(f, sep).value);
      case MapV(_, _, Some(es)) =>
        MapEntriesResolve(source, rec, i, sep, if ListsKeys(f) then es.Keys else {});
      case _ =>
        if IsLeaf(f) {
          LeafEntryResolves(source, rec, i, sep);
        }
    }
  }

  lemma ResolvesUnion(a: map<string, Val>, b: map<string, Val>, source: Val, sep: string)
    requires Resolves(a, source, sep) && Resolves(b, source, sep)
    ensures Resolves(a + b, source, sep)
  {
    forall q | q in a + b
      ensures NoPanic(q, source, sep) && GetValueOf(q, source, sep) == Ok((a + b)[q])
    {
      if q in b {
        assert (a + b)[q] == b[q];
      } else {
        assert (a + b)[q] == a[q];
      }
    }
  }

  /** An exported scalar field resolves under its own name. */
  lemma LeafEntryResolves(source: Val, rec: Val, i: nat, sep: string)
    requires sep != "" && DerefIs(source, rec) && rec.Rec? && i < |rec.fields| && DistinctNames(rec.fields)
    requires Exported(rec.fields[i].name) && SepFree(rec.fields[i].name, sep) && IsLeaf(rec.fields[i].value)
    ensures Resolves(map[rec.fields[i].name := rec.fields[i].value], source, sep)
  {
    SplitSepFree(rec.fields[i].name, sep);
    FieldIndexDistinct(rec.fields, i);
  }

  /** Each entry `k` of a pointer field's flattening resolves under `name + sep + k`. */
  lemma PointerEntriesResolve(source: Val, rec: Val, i: nat, sep: string, sub: map<string, Val>)
    requires sep != "" && DerefIs(source, rec) && rec.Rec? && i < |rec.fields| && DistinctNames(rec.fields)
    requires Exported(rec.fields[i].name) && SepFree(rec.fields[i].name, sep)
    requires rec.fields[i].value.Ptr? && rec.fields[i].value.target.Some?
    requires Resolves(sub, rec.fields[i].value, sep)
    ensures Resolves(PrefixedOn(rec.fields[i].name + sep, sub, sub.Keys), source, sep)
  {
    var name := rec.fields[i].name;
    var added := PrefixedOn(name + sep, sub, sub.Keys);
    forall q | q in added
      ensures NoPanic(q, source, sep) && GetValueOf(q, source, sep) == Ok(added[q])
    {
      PrefixedOnInv(name + sep, sub, sub.Keys, q);
      var k := q[|name + sep|..];
      assert q == name + sep + k;
      StepThroughPointer(source, rec, i, sep, k);
    }
  }



  /** Each listed key `k` of a non-nil map field resolves under `name + sep + k`. */
  lemma MapEntriesResolve(source: Val, rec: Val, i: nat, sep: string, listed: set<string>)
    requires sep != "" && DerefIs(source, rec) && rec.Rec? && i < |rec.fields| && DistinctNames(rec.fields)
    requires Exported(rec.fields[i].name) && SepFree(rec.fields[i].name, sep)
    requires rec.fields[i].value.MapV? && rec.fields[i].value.entries.Some?
    requires listed == if ListsKeys(rec.fields[i].value) then rec.fields[i].value.entries.value.Keys else {}
    ensures Resolves(PrefixedOn(rec.fields[i].name + sep, rec.fields[i].value.entries.value, listed), source, sep)
  {
    var name := rec.fields[i].name;
    var es := rec.fields[i].value.entries.value;
    var added := PrefixedOn(name + sep, es, listed);
    forall q | q in added
      ensures NoPanic(q, source, sep) && GetValueOf(q, source, sep) == Ok(added[q])
    {
      PrefixedOnInv(name + sep, es, listed, q);
      var k := q[|name + sep|..];
      assert q == name + sep + k;
      EnterField(rec, i, sep, k);
    }
  }

  /** Later fields only add entries: what `acc` holds is kept. */
  lemma {:induction false} FoldKeeps(rec: Val, i: nat, sep: string, acc: map<string, Val>)
    requires rec.Rec? && i <= |rec.fields| && FoldNoPanic(rec, i, sep)
    requires FlattenFields(rec, i, sep, acc).Ok?
    ensures acc.Keys <= FlattenFields(rec, i, sep, acc).value.Keys
    decreases |rec.fields| - i
  {
    if i < |rec.fields| {
      var added := FieldEntries(rec.fields[i].name, rec.fields[i].value, sep).value;
      FoldKeeps(rec, i + 1, sep, acc + added);
    }
  }

  /** Every field from `i` on adds its entries to the result. */
  lemma {:induction false} FoldIncludes(rec: Val, i: nat, sep: string, acc: map<string, Val>, j: nat)
    requires rec.Rec? && i <= j < |rec.fields| && FoldNoPanic(rec, i, sep)
    requires FlattenFields(rec, i, sep, acc).Ok?
    ensures FieldNoPanic(rec.fields[j].name, rec.fields[j].value, sep)
    ensures FieldEntries(rec.fields[j].name, rec.fields[j].value, sep).Ok?
    ensures FieldEntries(rec.fields[j].name, rec.fields[j].value, sep).value.Keys <= FlattenFields(rec, i, sep, acc).value.Keys
    decreases |rec.fields| - i
  {
    var added := FieldEntries(rec.fields[i].name, rec.fields[i].value, sep).value;
    if i == j {
      FoldKeeps(rec, i + 1, sep, acc + added);
    } else {
      FoldIncludes(rec, i + 1, sep, acc + added, j);
    }
  }

  /** The facts about the struct under `source` that the entry lemmas below need. */
  lemma ReadyRecord(source: Val, rec: Val, sep: string, i: nat)
    requires RoundTripReady(source, sep) && DerefIs(source, rec) && rec.Rec? && i < |rec.fields|
    ensures FoldNoPanic(rec, 0, sep) && DistinctNames(rec.fields)
    ensures Exported(rec.fields[i].name) ==> SepFree(rec.fields[i].name, sep)
    ensures Exported(rec.fields[i].name) ==> WellFormed(rec.fields[i].value) && NamesSepFree(rec.fields[i].value, sep)
  {
    assert WellFormed(rec) && NamesSepFree(rec, sep);
  }

  /** An exported scalar field appears under its bare name, with its value. */
  lemma FlattenScalarField(source: Val, rec: Val, sep: string, i: nat)
    requires RoundTripReady(source, sep) && DerefIs(source, rec) && rec.Rec? && i < |rec.fields|
    requires Exported(rec.fields[i].name) && IsLeaf(rec.fields[i].value)
    requires Flatten(source, sep).Ok?
    ensures rec.fields[i].name in Flatten(source, sep).value
    ensures Flatten(source, sep).value[rec.fields[i].name] == rec.fields[i].value
  {
    ReadyRecord(source, rec, sep, i);
    FoldIncludes(rec, 0, sep, map[], i);
    RoundTrip(source, sep);
    ResolveLeaf(source, rec, i, sep, "");
  }

  /**
   * Every entry `k` of a non-nil pointer field's own flattening appears as
   * `name + sep + k`, with the same value; that flattening succeeds.
   */
  lemma FlattenPointerField(source: Val, rec: Val, sep: string, i: nat, k: string)
    requires RoundTripReady(source, sep) && DerefIs(source, rec) && rec.Rec? && i < |rec.fields|
    requires Exported(rec.fields[i].name) && rec.fields[i].value.Ptr? && rec.fields[i].value.target.Some?
    requires Flatten(source, sep).Ok?
    ensures FlattenNoPanic(rec.fields[i].value, sep) && Flatten(rec.fields[i].value, sep).Ok?
    ensures k in Flatten(rec.fields[i].value, sep).value ==>
              && rec.fields[i].name + sep + k in Flatten(source, sep).value
              && Flatten(source, sep).value[rec.fields[i].name + sep + k] == Flatten(rec.fields[i].value, sep).value[k]
  {
    var name := rec.fields[i].name;
    var f := rec.fields[i].value;
    ReadyRecord(source, rec, sep, i);
    FoldIncludes(rec, 0, sep, map[], i);
    var sub := Flatten(f, sep).value;
    if k in sub {
      PrefixedOnAt(name + sep, sub, sub.Keys, k);
      RoundTrip(source, sep);
      RoundTrip(f, sep);
      StepThroughPointer(source, rec, i, sep, k);
    }
  }

  /**
   * Every key `k` that `getFieldsFromMap` lists for a non-nil map field
   * appears as `name + sep + k`, holding the map's value for `k`.
   */
  lemma FlattenMapField(source: Val, rec: Val, sep: string, i: nat, k: string)
    requires RoundTripReady(source, sep) && DerefIs(source, rec) && rec.Rec? && i < |rec.fields|
    requires Exported(rec.fields[i].name) && ListsKeys(rec.fields[i].value) && rec.fields[i].value.entries.Some?
    requires k in rec.fields[i].value.entries.value
    requires Flatten(source, sep).Ok?
    ensures rec.fields[i].name + sep + k in Flatten(source, sep).value
    ensures Flatten(source, sep).value[rec.fields[i].name + sep + k] == rec.fields[i].value.entries.value[k]
  {
    var name := rec.fields[i].name;
    var es := rec.fields[i].value.entries.value;
    ReadyRecord(source, rec, sep, i);
    FoldIncludes(rec, 0, sep, map[], i);
    PrefixedOnAt(name + sep, es, es.Keys, k);
    RoundTrip(source, sep);
    ResolveMapKey(source, rec, i, sep, k);
  }

  /**
   * The fields that produce a key `q`: an exported scalar field under its own
   * name, or an exported non-nil pointer field or non-nil map field whose
   * keys are listed, under `name + sep`. Unexported fields, nil pointers and
   * maps, int64 fields, other kinds and maps of unlisted element kinds
   * produce none.
   */
  ghost predicate ProducesKey(f: Field, q: string, sep: string) {
    && Exported(f.name)
    && (|| (IsLeaf(f.value) && q == f.name)
        || (&& ((f.value.Ptr? && f.value.target.Some?) || (ListsKeys(f.value) && f.value.entries.Some?))
            && |f.name + sep| <= |q| && q[..|f.name + sep|] == f.name + sep))
  }

  lemma FieldEntriesProduce(f: Field, sep: string, q: string)
    requires FieldNoPanic(f.name, f.value, sep) && FieldEntries(f.name, f.value, sep).Ok?
    requires q in FieldEntries(f.name, f.value, sep).value
    ensures ProducesKey(f, q, sep)
  {
    var v := f.value;
    if Exported(f.name) && v.Ptr? && v.target.Some? {
      var sub := Flatten(v, sep).value;
      PrefixedOnInv(f.name + sep, sub, sub.Keys, q);
    } else if Exported(f.name) && v.MapV? && v.entries.Some? {
      var es := v.entries.value;
      PrefixedOnInv(f.name + sep, es, if ListsKeys(v) then es.Keys else {}, q);
    }
  }

  lemma {:induction false} FoldProduces(rec: Val, i: nat, sep: string, acc: map<string, Val>, q: string)
    requires rec.Rec? && i <= |rec.fields| && FoldNoPanic(rec, i, sep)
    requires FlattenFields(rec, i, sep, acc).Ok? && q in FlattenFields(rec, i, sep, acc).value
    ensures q in acc || exists j :: i <= j < |rec.fields| && ProducesKey(rec.fields[j], q, sep)
    decreases |rec.fields| - i
  {
    if i < |rec.fields| {
      var added := FieldEntries(rec.fields[i].name, rec.fields[i].value, sep).value;
      FoldProduces(rec, i + 1, sep, acc + added, q);
      if q in added {
        FieldEntriesProduce(rec.fields[i], sep, q);
      }
    }
  }

  /** Every key of the result comes from a field that produces keys. */
  lemma FlattenKeysProduced(source: Val, rec: Val, sep: string, q: string)
    requires FlattenNoPanic(source, sep) && DerefIs(source, rec) && rec.Rec?
    requires Flatten(source, sep).Ok? && q in Flatten(source, sep).value
    ensures exists j :: 0 <= j < |rec.fields| && ProducesKey(rec.fields[j], q, sep)
  {
    FoldProduces(rec, 0, sep, map[], q);
  }

  /** A non-nil pointer field whose own flattening fails. */
  ghost predicate FailsBelow(f: Field, sep: string) {
    FieldNoPanic(f.name, f.value, sep) && Exported(f.name) && f.value.Ptr? && f.value.target.Some? && Flatten(f.value, sep).Err?
  }

  lemma {:induction false} FoldFails(rec: Val, i: nat, sep: string, acc: map<string, Val>)
    requires rec.Rec? && i <= |rec.fields| && FoldNoPanic(rec, i, sep)
    ensures FlattenFields(rec, i, sep, acc).Err? <==>
              exists j :: i <= j < |rec.fields| && FailsBelow(rec.fields[j], sep)
    decreases |rec.fields| - i
  {
    if i < |rec.fields| {
      var e := FieldEntries(rec.fields[i].name, rec.fields[i].value, sep);
      if e.Ok? {
        FoldFails(rec, i + 1, sep, acc + e.value);
        if exists j :: i <= j < |rec.fields| && FailsBelow(rec.fields[j], sep) {
          var j :| i <= j < |rec.fields| && FailsBelow(rec.fields[j], sep);
          assert j != i;
        }
      }
    }
  }

  /**
   * `GetFlatData` fails exactly when the source is neither a struct nor a map
   * after one dereference, or when some exported non-nil pointer field fails
   * to flatten; nothing else (unexported fields, nil fields, unsupported kinds)
   * is an error.
   */
  lemma FlattenFailsIff(source: Val, sep: string)
    requires FlattenNoPanic(source, sep)
    ensures Flatten(source, sep).Err? <==>
              || !(exists rec :: DerefIs(source, rec) && (rec.Rec? || rec.MapV?))
              || exists rec, j :: DerefIs(source, rec) && rec.Rec? && 0 <= j < |rec.fields| && FailsBelow(rec.fields[j], sep)
  {
    var obj := if source.Ptr? then source.target else Some(source);
    if obj.Some? {
      assert DerefIs(source, obj.value);
      if obj.value.Rec? {
        FoldFails(obj.value, 0, sep, map[]);
      }
    }
  }

  /** A map source, or a pointer to one, flattens to the empty map without error. */
  lemma FlattenMapRoot(source: Val, sep: string)
    requires source.MapV? || (source.Ptr? && source.target.Some? && source.target.value.MapV?)
    ensures FlattenNoPanic(source, sep) && Flatten(source, sep) == Ok(map[])
  {
  }

  /**
   * A struct field that would panic is harmless once an earlier field has
   * failed: the loop returns that error and never reaches the struct field.
   */
  lemma ErrorBeforeStructField(sep: string)
    ensures var source := Rec([Field("P", Ptr(Some(IntV(1)))), Field("S", Rec([]))]);
            FlattenNoPanic(source, sep) && Flatten(source, sep) == Err(UnhandledData)
  {
    var source := Rec([Field("P", Ptr(Some(IntV(1)))), Field("S", Rec([]))]);
    assert Exported("P");
    assert FieldEntries("P", Ptr(Some(IntV(1))), sep) == Err(UnhandledData);
  }
}
