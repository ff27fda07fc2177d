/**
 * The string operations the resolver relies on: Go's `strings.Split` and
 * `strings.Join`, and the letter-case tests `unicode.IsUpper` and
 * `strings.ToUpper` restricted to ASCII.
 */
module Text {

  /** `unicode.IsUpper`, restricted to the ASCII letters. */
  predicate IsUpper(c: char) {
    'A' <= c <= 'Z'
  }

  function UpperChar(c: char): char {
    if 'a' <= c <= 'z' then (c as int - 32) as char else c
  }

  function LowerChar(c: char): char {
    if 'A' <= c <= 'Z' then (c as int + 32) as char else c
  }

  /** `strings.ToUpper`, restricted to the ASCII letters. */
  function ToUpper(s: string): (r: string)
    ensures |r| == |s|
    ensures forall i :: 0 <= i < |s| ==> r[i] == UpperChar(s[i])
  {
    if s == [] then [] else [UpperChar(s[0])] + ToUpper(s[1..])
  }

  /** Case-insensitive ASCII equality, stated letter by letter. */
  predicate EqualFoldAscii(s: string, t: string) {
    |s| == |t| && forall i :: 0 <= i < |s| ==> LowerChar(s[i]) == LowerChar(t[i])
  }

  /** True when `sep` occurs in `s` at position `i`. */
  predicate OccursAt(s: string, sep: string, i: nat) {
    i + |sep| <= |s| && s[i..i + |sep|] == sep
  }

  /**
   * `strings.Split(s, sep)`: the pieces of `s` between the non-overlapping
   * occurrences of `sep`, found from the left; with an empty `sep`, one piece
   * per character (so the empty string splits into no pieces at all).
   */
  function Split(s: string, sep: string): (r: seq<string>)
    ensures sep != [] ==> |r| > 0
    decreases |s|
  {
    if sep == [] then Explode(s)
    else if |s| < |sep| then [s]
    else if s[..|sep|] == sep then [""] + Split(s[|sep|..], sep)
    else PrependChar(s[0], Split(s[1..], sep))
  }

  /** Puts `c` in front of the first piece. */
  function PrependChar(c: char, parts: seq<string>): seq<string>
    requires |parts| > 0
  {
    [[c] + parts[0]] + parts[1..]
  }

  lemma JoinPrependChar(c: char, parts: seq<string>, sep: string)
    requires |parts| > 0
    ensures Join(PrependChar(c, parts), sep) == [c] + Join(parts, sep)
  {
    var q := PrependChar(c, parts);
    if |parts| > 1 {
      assert q[1..] == parts[1..];
      assert Join(q, sep) == ([c] + parts[0]) + sep + Join(parts[1..], sep);
    }
  }

  function Explode(s: string): (r: seq<string>)
    ensures |r| == |s|
    ensures forall i :: 0 <= i < |s| ==> r[i] == [s[i]]
  {
    if s == [] then [] else [[s[0]]] + Explode(s[1..])
  }

  /** `strings.Join(parts, sep)`. */
  function Join(parts: seq<string>, sep: string): string
  {
    if parts == [] then ""
    else if |parts| == 1 then parts[0]
    else parts[0] + sep + Join(parts[1..], sep)
  }

  /** Joining the pieces of a split gives back the string that was split. */
  lemma {:induction false} JoinSplit(s: string, sep: string)
    ensures Join(Split(s, sep), sep) == s
    decreases |s|
  {
    if sep == [] {
      JoinExplode(s);
    } else if |s| < |sep| {
    } else if s[..|sep|] == sep {
      var t := s[|sep|..];
      JoinSplit(t, sep);
      assert Split(s, sep) == [""] + Split(t, sep);
      assert s == "" + sep + t;
    } else {
      JoinSplit(s[1..], sep);
      JoinPrependChar(s[0], Split(s[1..], sep), sep);
      assert s == [s[0]] + s[1..];
    }
  }

  lemma {:induction false} JoinExplode(s: string)
    ensures Join(Explode(s), "") == s
    decreases |s|
  {
    if |s| > 1 {
      JoinExplode(s[1..]);
      assert Explode(s)[1..] == Explode(s[1..]);
      assert s == [s[0]] + s[1..];
    }
  }

  /**
   * Splitting the rejoined tail of a split gives back that tail: this is why
   * a recursive call on `Join(fields[1:], sep)` sees exactly one segment less.
   */
  lemma {:induction false} SplitJoinTail(s: string, sep: string)
    requires |Split(s, sep)| > 1
    ensures Split(Join(Split(s, sep)[1..], sep), sep) == Split(s, sep)[1..]
    decreases |s|
  {
    if sep == [] {
      assert Split(s, sep)[1..] == Explode(s[1..]);
      JoinExplode(s[1..]);
    } else if |s| < |sep| {
    } else if s[..|sep|] == sep {
      var t := s[|sep|..];
      assert Split(s, sep)[1..] == Split(t, sep);
      JoinSplit(t, sep);
    } else {
      var rest := Split(s[1..], sep);
      assert Split(s, sep)[1..] == rest[1..];
      SplitJoinTail(s[1..], sep);
    }
  }

  /**
   * `name` contains no occurrence of `sep`, not even one that would begin
   * inside `name` and run on into a following `sep`.
   */
  predicate SepFree(name: string, sep: string) {
    forall i :: 0 <= i < |name| ==> !OccursAt(name + sep, sep, i)
  }

  /** A separator-free name splits to itself. */
  lemma {:induction false} SplitSepFree(name: string, sep: string)
    requires sep != [] && SepFree(name, sep)
    ensures Split(name, sep) == [name]
    decreases |name|
  {
    if |name| < |sep| {
    } else {
      assert !OccursAt(name + sep, sep, 0);
      assert (name + sep)[..|sep|] == name[..|sep|];
      SepFreeTail(name, sep);
      SplitSepFree(name[1..], sep);
      assert name == [name[0]] + name[1..];
    }
  }

  lemma SepFreeTail(name: string, sep: string)
    requires |name| > 0 && SepFree(name, sep)
    ensures SepFree(name[1..], sep)
  {
    forall i | 0 <= i < |name[1..]|
      ensures !OccursAt(name[1..] + sep, sep, i)
    {
      assert !OccursAt(name + sep, sep, i + 1);
      assert (name[1..] + sep)[i..] == (name + sep)[i + 1..];
    }
  }

  /** A separator-free head followed by the separator splits off as one piece. */
  lemma {:induction false} SplitCons(name: string, sep: string, rest: string)
    requires sep != [] && SepFree(name, sep)
    ensures Split(name + sep + rest, sep) == [name] + Split(rest, sep)
    decreases |name|
  {
    var s := name + sep + rest;
    if name == [] {
      assert s[..|sep|] == sep;
      assert s[|sep|..] == rest;
    } else {
      assert !OccursAt(name + sep, sep, 0);
      assert s[..|sep|] == (name + sep)[..|sep|];
      SepFreeTail(name, sep);
      SplitCons(name[1..], sep, rest);
      assert s[1..] == name[1..] + sep + rest;
      assert name == [name[0]] + name[1..];
    }
  }

  /** Separator-free pieces joined with the separator split back into those pieces. */
  lemma {:induction false} SplitJoinSegments(segs: seq<string>, sep: string)
    requires sep != [] && |segs| > 0
    requires forall i :: 0 <= i < |segs| ==> SepFree(segs[i], sep)
    ensures Split(Join(segs, sep), sep) == segs
    decreases |segs|
  {
    if |segs| == 1 {
      SplitSepFree(segs[0], sep);
    } else {
      SplitJoinSegments(segs[1..], sep);
      SplitCons(segs[0], sep, Join(segs[1..], sep));
      assert [segs[0]] + segs[1..] == segs;
    }
  }

  /** A one-character separator is free in every name that does not contain that character. */
  lemma SingleCharSepFree(name: string, c: char)
    requires forall i :: 0 <= i < |name| ==> name[i] != c
    ensures SepFree(name, [c])
  {
    forall i | 0 <= i < |name| ensures !OccursAt(name + [c], [c], i) {
      assert (name + [c])[i..i + 1] == [name[i]];
    }
  }
}
