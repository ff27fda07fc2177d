/**
 * How the root package's `getValueOf` (dataq.go and helpers.go) treats each
 * kind of field it meets, stated for a struct with distinct field names whose
 * names do not contain the separator. Unlike the current resolver, the last
 * segment yields the field whatever its kind, and only a struct or pointer
 * field can be walked further.
 */
module LegacyProps {
  import opened Wrappers
  import opened Text
  import opened Values
  import opened Legacy
  import opened HelpersProps

  /** A path of one exported segment yields that field as it is, whatever its kind. */
  lemma ResolveField(source: Val, rec: Val, i: nat, sep: string, joinSep: string)
    requires sep != "" && DerefIs(source, rec) && rec.Rec? && i < |rec.fields| && DistinctNames(rec.fields)
    requires Exported(rec.fields[i].name) && SepFree(rec.fields[i].name, sep)
    ensures ResolveNoPanic(rec.fields[i].name, source, sep, joinSep)
    ensures Resolve(rec.fields[i].name, source, sep, joinSep) == Ok(rec.fields[i].value)
  {
    SplitSepFree(rec.fields[i].name, sep);
    FieldIndexDistinct(rec.fields, i);
  }

  /**
   * Any path below a field that is neither a struct nor a pointer is an
   * error carrying that field's value, which is what the message formats.
   */
  lemma ResolveBelowScalar(source: Val, rec: Val, i: nat, sep: string, joinSep: string, rest: string)
    requires sep != "" && DerefIs(source, rec) && rec.Rec? && i < |rec.fields| && DistinctNames(rec.fields)
    requires Exported(rec.fields[i].name) && SepFree(rec.fields[i].name, sep)
    requires !rec.fields[i].value.Rec? && !rec.fields[i].value.Ptr?
    ensures ResolveNoPanic(rec.fields[i].name + sep + rest, source, sep, joinSep)
    ensures Resolve(rec.fields[i].name + sep + rest, source, sep, joinSep) == Err(UnsupportedFieldValue(rec.fields[i].value))
  {
    EnterField(rec, i, sep, rest);
  }

  /**
   * Below a struct or pointer field, the walk continues in that field with
   * the remaining segments rejoined by `joinSep`; with the same separator on
   * both sides, that is the rest of the path as written.
   */
  lemma ResolveDescend(source: Val, rec: Val, i: nat, sep: string, joinSep: string, rest: string)
    requires sep != "" && DerefIs(source, rec) && rec.Rec? && i < |rec.fields| && DistinctNames(rec.fields)
    requires Exported(rec.fields[i].name) && SepFree(rec.fields[i].name, sep)
    requires rec.fields[i].value.Rec? || rec.fields[i].value.Ptr?
    ensures ResolveNoPanic(rec.fields[i].name + sep + rest, source, sep, joinSep) <==>
              ResolveNoPanic(Join(Split(rest, sep), joinSep), rec.fields[i].value, sep, joinSep)
    ensures ResolveNoPanic(rec.fields[i].name + sep + rest, source, sep, joinSep) ==>
              Resolve(rec.fields[i].name + sep + rest, source, sep, joinSep) ==
              Resolve(Join(Split(rest, sep), joinSep), rec.fields[i].value, sep, joinSep)
    ensures joinSep == sep ==> Join(Split(rest, sep), joinSep) == rest
  {
    EnterField(rec, i, sep, rest);
    JoinSplit(rest, sep);
  }

  /**
   * The first segment is checked before the source is looked at: a path
   * whose first segment is not exported fails the same way on every source,
   * with an error carrying the segment's first character.
   */
  lemma ResolveRejectsFirst(path: string, s1: Val, s2: Val, sep: string, joinSep: string)
    requires ResolveNoPanic(path, s1, sep, joinSep) && ResolveNoPanic(path, s2, sep, joinSep)
    requires !Exported(Split(path, sep)[0])
    ensures Resolve(path, s1, sep, joinSep) == Resolve(path, s2, sep, joinSep) == Err(NotExported(Split(path, sep)[0][0]))
  {
  }

  /**
   * After one dereference, a source that is not a struct (a nil pointer
   * included) is an error; so is a first segment naming no field.
   */
  lemma ResolveRootOrMissing(path: string, source: Val, sep: string, joinSep: string)
    requires ResolveNoPanic(path, source, sep, joinSep) && Exported(Split(path, sep)[0])
    ensures !(exists rec :: DerefIs(source, rec) && rec.Rec?) ==> Resolve(path, source, sep, joinSep) == Err(UnhandledData)
    ensures forall rec :: DerefIs(source, rec) && rec.Rec? && FieldIndex(rec.fields, Split(path, sep)[0]).None? ==>
              Resolve(path, source, sep, joinSep) == Err(MissingField(Split(path, sep)[0]))
  {
    var obj := if source.Ptr? then source.target else Some(source);
    if obj.Some? && obj.value.Rec? {
      assert DerefIs(source, obj.value);
    }
  }
}
