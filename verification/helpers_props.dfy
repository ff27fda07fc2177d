/**
 * How `getValueOf` (pkg/helpers.go) treats each kind of field it meets,
 * stated for a struct with distinct field names whose names do not contain
 * the separator.
 */
module HelpersProps {
  import opened Wrappers
  import opened Text
  import opened Values
  import opened Helpers

  /** The value a traversal inspects: `source`, or its target when it is a pointer. */
  predicate DerefIs(source: Val, rec: Val) {
    if source.Ptr? then source.target == Some(rec) else source == rec
  }

  /** The path `name + sep + rest` enters field `i` and continues with `rest`. */
  lemma EnterField(rec: Val, i: nat, sep: string, rest: string)
    requires rec.Rec? && i < |rec.fields| && DistinctNames(rec.fields)
    requires sep != "" && SepFree(rec.fields[i].name, sep)
    ensures Split(rec.fields[i].name + sep + rest, sep) == [rec.fields[i].name] + Split(rest, sep)
    ensures |Split(rec.fields[i].name + sep + rest, sep)| > 1
    ensures Join(Split(rec.fields[i].name + sep + rest, sep)[1..], sep) == rest
    ensures FieldIndex(rec.fields, rec.fields[i].name) == Some(i)
  {
    var name := rec.fields[i].name;
    var parts := Split(rest, sep);
    SplitCons(name, sep, rest);
    assert ([name] + parts)[1..] == parts;
    JoinSplit(rest, sep);
    FieldIndexDistinct(rec.fields, i);
  }

  lemma FieldIndexDistinct(fs: seq<Field>, i: nat)
    requires i < |fs| && DistinctNames(fs)
    ensures FieldIndex(fs, fs[i].name) == Some(i)
  {
    assert FieldIndex(fs, fs[i].name).Some?;
  }

  /** Below a non-nil pointer field, the path continues in the pointer's target. */
  lemma StepThroughPointer(source: Val, rec: Val, i: nat, sep: string, rest: string)
    requires sep != "" && DerefIs(source, rec) && rec.Rec? && i < |rec.fields| && DistinctNames(rec.fields)
    requires Exported(rec.fields[i].name) && SepFree(rec.fields[i].name, sep)
    requires rec.fields[i].value.Ptr? && rec.fields[i].value.target.Some?
    requires NoPanic(rest, rec.fields[i].value, sep)
    ensures NoPanic(rec.fields[i].name + sep + rest, source, sep)
    ensures GetValueOf(rec.fields[i].name + sep + rest, source, sep) == GetValueOf(rest, rec.fields[i].value, sep)
  {
    EnterField(rec, i, sep, rest);
  }
  /** A scalar field is the value of its own name; any path below it is an error. */
  lemma ResolveLeaf(source: Val, rec: Val, i: nat, sep: string, rest: string)
    requires sep != "" && DerefIs(source, rec) && rec.Rec? && i < |rec.fields| && DistinctNames(rec.fields)
    requires Exported(rec.fields[i].name) && SepFree(rec.fields[i].name, sep) && IsLeaf(rec.fields[i].value)
    ensures NoPanic(rec.fields[i].name, source, sep)
    ensures GetValueOf(rec.fields[i].name, source, sep) == Ok(rec.fields[i].value)
    ensures NoPanic(rec.fields[i].name + sep + rest, source, sep)
    ensures GetValueOf(rec.fields[i].name + sep + rest, source, sep) == Err(PrimitiveSublevel(rec.fields[i].name))
  {
    SplitSepFree(rec.fields[i].name, sep);
    EnterField(rec, i, sep, rest);
  }

  /** An int64 field, or one of a kind the resolver does not handle, is an error at any depth. */
  lemma ResolveUnsupported(source: Val, rec: Val, i: nat, sep: string, rest: string)
    requires sep != "" && DerefIs(source, rec) && rec.Rec? && i < |rec.fields| && DistinctNames(rec.fields)
    requires Exported(rec.fields[i].name) && SepFree(rec.fields[i].name, sep)
    requires rec.fields[i].value.Int64V? || rec.fields[i].value.Other?
    ensures NoPanic(rec.fields[i].name, source, sep)
    ensures GetValueOf(rec.fields[i].name, source, sep) == Err(UnsupportedFieldType(rec.fields[i].name))
    ensures NoPanic(rec.fields[i].name + sep + rest, source, sep)
    ensures GetValueOf(rec.fields[i].name + sep + rest, source, sep) == Err(UnsupportedFieldType(rec.fields[i].name))
  {
    SplitSepFree(rec.fields[i].name, sep);
    EnterField(rec, i, sep, rest);
  }

  /** A struct, pointer or map field is not a value the resolver returns. */
  lemma ResolveContainerTarget(source: Val, rec: Val, i: nat, sep: string)
    requires sep != "" && DerefIs(source, rec) && rec.Rec? && i < |rec.fields| && DistinctNames(rec.fields)
    requires Exported(rec.fields[i].name) && SepFree(rec.fields[i].name, sep)
    requires rec.fields[i].value.Rec? || rec.fields[i].value.Ptr? || rec.fields[i].value.MapV?
    ensures NoPanic(rec.fields[i].name, source, sep)
    ensures GetValueOf(rec.fields[i].name, source, sep) ==
              if rec.fields[i].value.MapV? then Err(MapTarget(rec.fields[i].name))
              else Err(StructOrPointerTarget(rec.fields[i].name))
  {
    SplitSepFree(rec.fields[i].name, sep);
    FieldIndexDistinct(rec.fields, i);
  }

  /** A nil pointer or nil map with path remaining is an error. */
  lemma ResolveNil(source: Val, rec: Val, i: nat, sep: string, rest: string)
    requires sep != "" && DerefIs(source, rec) && rec.Rec? && i < |rec.fields| && DistinctNames(rec.fields)
    requires Exported(rec.fields[i].name) && SepFree(rec.fields[i].name, sep)
    requires rec.fields[i].value == Ptr(None) || (rec.fields[i].value.MapV? && rec.fields[i].value.entries.None?)
    ensures NoPanic(rec.fields[i].name + sep + rest, source, sep)
    ensures GetValueOf(rec.fields[i].name + sep + rest, source, sep) == Err(NilField(rec.fields[i].name))
  {
    EnterField(rec, i, sep, rest);
  }

  /**
   * Below a non-nil map field, the whole rest of the path, rejoined with the
   * separator, is looked up as one key, even when it holds separators itself.
   */
  lemma ResolveMapKey(source: Val, rec: Val, i: nat, sep: string, rest: string)
    requires sep != "" && DerefIs(source, rec) && rec.Rec? && i < |rec.fields| && DistinctNames(rec.fields)
    requires Exported(rec.fields[i].name) && SepFree(rec.fields[i].name, sep)
    requires rec.fields[i].value.MapV? && rec.fields[i].value.entries.Some? && KeysReadable(rec.fields[i].value)
    ensures NoPanic(rec.fields[i].name + sep + rest, source, sep)
    ensures GetValueOf(rec.fields[i].name + sep + rest, source, sep) == MapLookup(rest, rec.fields[i].value)
    ensures rest in rec.fields[i].value.entries.value ==>
              GetValueOf(rec.fields[i].name + sep + rest, source, sep) == Ok(rec.fields[i].value.entries.value[rest])
    ensures rest !in rec.fields[i].value.entries.value ==>
              GetValueOf(rec.fields[i].name + sep + rest, source, sep) == Err(MapKeyMissing(rest))
  {
    EnterField(rec, i, sep, rest);
  }

  /**
   * The first segment is checked before the source is looked at: a path
   * whose first segment is not exported fails the same way on every source.
   */
  lemma RejectInvalidFirst(path: string, s1: Val, s2: Val, sep: string)
    requires NoPanic(path, s1, sep) && NoPanic(path, s2, sep)
    requires !Exported(Split(path, sep)[0])
    ensures GetValueOf(path, s1, sep) == GetValueOf(path, s2, sep) == Err(InvalidField(Split(path, sep)[0]))
  {
  }

  /** After one dereference, a source that is not a struct is an error; so is a name it lacks. */
  lemma RejectRootOrMissing(path: string, source: Val, sep: string)
    requires NoPanic(path, source, sep) && Exported(Split(path, sep)[0])
    ensures !(exists rec :: DerefIs(source, rec) && rec.Rec?) ==> GetValueOf(path, source, sep) == Err(UnhandledData)
    ensures forall rec :: DerefIs(source, rec) && rec.Rec? && FieldIndex(rec.fields, Split(path, sep)[0]).None? ==>
              GetValueOf(path, source, sep) == Err(MissingField(Split(path, sep)[0]))
  {
    var obj := if source.Ptr? then source.target else Some(source);
    if obj.Some? && obj.value.Rec? {
      assert DerefIs(source, obj.value);
    }
  }
}
