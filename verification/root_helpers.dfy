/**
 * The separator-parameterised `getValueOf` of helpers.go. It splits the path
 * on `sep` but rejoins the rest with "." before recursing, so the walk is
 * `Resolve(name, source, sep, ".")`. With `sep` = "." that is exactly the
 * walk of dataq.go; with any other separator a path of two segments still
 * works, but in a longer one every segment after the first is read as one
 * name with dots in it. The corrected walk rejoins with `sep` and is proved
 * not to depend on the separator.
 */
module RootHelpers {
  import opened Wrappers
  import opened Text
  import opened Values
  import opened Legacy

  /** As written: a path of two segments walks those two segments, whatever the separator. */
  lemma TwoSegmentsAsWritten(a: string, b: string, source: Val, sep: string)
    requires sep != "" && SepFree(a, sep) && SepFree(b, sep)
    requires SegmentsNoPanic([a, b], source)
    ensures ResolveNoPanic(a + sep + b, source, sep, Dot)
    ensures Resolve(a + sep + b, source, sep, Dot) == ResolveSegments([a, b], source)
  {
    SplitCons(a, sep, b);
    SplitSepFree(b, sep);
    assert Split(a + sep + b, sep) == [a, b];
    assert Join([a, b][1..], Dot) == b;
  }

  /**
   * As written: in a path of three segments, the last two reach the second
   * level rejoined as the single name `b.c`.
   */
  lemma ThreeSegmentsAsWritten(a: string, b: string, c: string, source: Val, sep: string)
    requires sep != "" && SepFree(a, sep) && SepFree(b, sep) && SepFree(c, sep) && SepFree(b + Dot + c, sep)
    requires SegmentsNoPanic([a, b + Dot + c], source)
    ensures ResolveNoPanic(a + sep + b + sep + c, source, sep, Dot)
    ensures Resolve(a + sep + b + sep + c, source, sep, Dot) == ResolveSegments([a, b + Dot + c], source)
  {
    var name := a + sep + b + sep + c;
    assert Join([a, b, c], sep) == name by {
      assert [a, b, c][1..] == [b, c];
      assert [b, c][1..] == [c];
      assert Join([c], sep) == c;
      assert Join([b, c], sep) == b + sep + c;
      assert Join([a, b, c], sep) == a + sep + (b + sep + c);
      assert a + sep + (b + sep + c) == name;
    }
    SplitJoinSegments([a, b, c], sep);
    assert Join([b, c], Dot) == b + Dot + c by {
      assert [b, c][1..] == [c];
    }
    SplitSepFree(b + Dot + c, sep);
    TwoLevels(name, a, [b, c], b + Dot + c, source, sep, Dot);
  }

  /**
   * A path that splits into `a` and then `rest`, where `rest` rejoined and
   * split again is the single segment `m`, is walked as the two segments
   * `a` and `m`.
   */
  lemma TwoLevels(name: string, a: string, rest: seq<string>, m: string, source: Val, sep: string, joinSep: string)
    requires Split(name, sep) == [a] + rest && |rest| > 0 && Split(Join(rest, joinSep), sep) == [m]
    requires SegmentsNoPanic([a, m], source)
    ensures ResolveNoPanic(name, source, sep, joinSep)
    ensures Resolve(name, source, sep, joinSep) == ResolveSegments([a, m], source)
  {
    assert ([a] + rest)[1..] == rest;
    assert [a, m][1..] == [m];
    if a != "" && IsUpper(a[0]) {
      var obj := if source.Ptr? then source.target else Some(source);
      if obj.Some? && obj.value.Rec? && FieldIndex(obj.value.fields, a).Some? {
        var f := obj.value.fields[FieldIndex(obj.value.fields, a).value].value;
        if f.Rec? || f.Ptr? {
          OneLevel(Join(rest, joinSep), m, f, sep, joinSep);
        }
      }
    }
  }

  lemma OneLevel(name: string, m: string, source: Val, sep: string, joinSep: string)
    requires Split(name, sep) == [m] && SegmentsNoPanic([m], source)
    ensures ResolveNoPanic(name, source, sep, joinSep)
    ensures Resolve(name, source, sep, joinSep) == ResolveSegments([m], source)
  {
  }

  /**
   * Corrected: rejoining with the separator that was split on walks exactly
   * the segments, so two separators that occur in none of them resolve the
   * same segments to the same result.
   */
  lemma CorrectedSeparatorIndependent(segs: seq<string>, source: Val, sep1: string, sep2: string)
    requires sep1 != "" && sep2 != "" && |segs| > 0
    requires forall i :: 0 <= i < |segs| ==> SepFree(segs[i], sep1) && SepFree(segs[i], sep2)
    requires SegmentsNoPanic(segs, source)
    ensures ResolveNoPanic(Join(segs, sep1), source, sep1, sep1)
    ensures ResolveNoPanic(Join(segs, sep2), source, sep2, sep2)
    ensures Resolve(Join(segs, sep1), source, sep1, sep1) == ResolveSegments(segs, source)
    ensures Resolve(Join(segs, sep1), source, sep1, sep1) == Resolve(Join(segs, sep2), source, sep2, sep2)
  {
    SplitJoinSegments(segs, sep1);
    SplitJoinSegments(segs, sep2);
    ResolveBySegments(Join(segs, sep1), source, sep1);
    ResolveBySegments(Join(segs, sep2), source, sep2);
  }

  /** A record with a nested struct: `A` holds `B`, which holds the int `C` = 1. */
  function Nested(): Val {
    Rec([Field("A", Rec([Field("B", Rec([Field("C", IntV(1))]))]))])
  }

  /**
   * The path `A_B_C` with separator "_": as written the walk looks for a
   * field called `B.C` and fails.
   */
  lemma RejoinWithDotCounterexample()
    ensures ResolveNoPanic("A_B_C", Nested(), "_", Dot)
    ensures Resolve("A_B_C", Nested(), "_", Dot) == Err(MissingField("B.C"))
  {
    var s := Nested();
    var inner := Rec([Field("B", Rec([Field("C", IntV(1))]))]);
    assert FieldIndex(s.fields, "A") == Some(0);
    assert FieldIndex(inner.fields, "B.C") == None;
    assert SegmentsNoPanic(["A", "B.C"], s) by {
      assert ["A", "B.C"][1..] == ["B.C"];
    }
    SingleCharSepFree("A", '_');
    SingleCharSepFree("B", '_');
    SingleCharSepFree("C", '_');
    SingleCharSepFree("B.C", '_');
    assert "B" + Dot + "C" == "B.C";
    ThreeSegmentsAsWritten("A", "B", "C", s, "_");
    assert "A" + "_" + "B" + "_" + "C" == "A_B_C";
    assert ResolveSegments(["A", "B.C"], s) == Err(MissingField("B.C")) by {
      assert ["A", "B.C"][1..] == ["B.C"];
    }
  }

  /**
   * The same path with the corrected walk finds `C`, as the path `A.B.C`
   * does with ".".
   */
  lemma CorrectedResolvesNested()
    ensures ResolveNoPanic("A_B_C", Nested(), "_", "_")
    ensures Resolve("A_B_C", Nested(), "_", "_") == Ok(IntV(1))
    ensures ResolveNoPanic("A.B.C", Nested(), Dot, Dot)
    ensures Resolve("A.B.C", Nested(), Dot, Dot) == Ok(IntV(1))
  {
    NestedSegments();
    SegmentsSepFree('_');
    SegmentsSepFree('.');
    CorrectedSeparatorIndependent(["A", "B", "C"], Nested(), "_", Dot);
    JoinSegments('_');
    JoinSegments('.');
  }

  /** None of the segments `A`, `B`, `C` holds a one-character separator other than those letters. */
  lemma SegmentsSepFree(c: char)
    requires c !in "ABC"
    ensures forall i :: 0 <= i < 3 ==> SepFree(["A", "B", "C"][i], [c])
  {
  }

  lemma JoinSegments(c: char)
    ensures Join(["A", "B", "C"], [c]) == ['A', c, 'B', c, 'C']
  {
    assert ["A", "B", "C"][1..] == ["B", "C"];
    assert ["B", "C"][1..] == ["C"];
    assert Join(["B", "C"], [c]) == ['B', c, 'C'];
  }

  lemma NestedSegments()
    ensures SegmentsNoPanic(["A", "B", "C"], Nested())
    ensures ResolveSegments(["A", "B", "C"], Nested()) == Ok(IntV(1))
  {
  }
}
