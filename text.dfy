/**
 * Python's `str.replace` (of one character, and of a pattern by nothing)
 * and `str.join`, which the script calls. `Split` reads a joined line back,
 * and `IndexOf` (`str.find`) finds the first occurrence of a pattern: the
 * model uses it to tell where a URL's scheme ends.
 */
module Text {
  import opened Wrappers

  /** `s.replace(from, to)` for one-character arguments. */
  function ReplaceChar(s: string, from: char, to: char): (r: string)
    ensures |r| == |s|
    ensures forall i :: 0 <= i < |s| ==> r[i] == (if s[i] == from then to else s[i])
  {
    if s == [] then [] else [if s[0] == from then to else s[0]] + ReplaceChar(s[1..], from, to)
  }

  /** `sep.join(parts)`: the parts with one `sep` between neighbours. */
  function Join(sep: char, parts: seq<string>): string
  {
    if |parts| == 0 then ""
    else if |parts| == 1 then parts[0]
    else parts[0] + [sep] + Join(sep, parts[1..])
  }

  /** `s.split(sep)` for a one-character separator: never empty, and no piece holds `sep`. */
  function Split(s: string, sep: char): (r: seq<string>)
    ensures |r| >= 1
    ensures forall k :: 0 <= k < |r| ==> sep !in r[k]
  {
    if s == [] then [""]
    else
      var rest := Split(s[1..], sep);
      if s[0] == sep then [""] + rest else [[s[0]] + rest[0]] + rest[1..]
  }

  /** Appending one more part to a join adds the separator and that part. */
  lemma {:induction false} JoinSnoc(sep: char, parts: seq<string>, last: string)
    requires |parts| >= 1
    ensures Join(sep, parts + [last]) == Join(sep, parts) + [sep] + last
  {
    if |parts| > 1 {
      assert (parts + [last])[1..] == parts[1..] + [last];
      JoinSnoc(sep, parts[1..], last);
    }
  }

  /** Splitting a text that starts with a separator-free word. */
  lemma {:induction false} SplitWord(w: string, t: string, sep: char)
    requires sep !in w
    ensures Split(w + t, sep) == [w + Split(t, sep)[0]] + Split(t, sep)[1..]
  {
    var parts := Split(t, sep);
    if w == [] {
      assert w + t == t;
      assert parts == [parts[0]] + parts[1..];
      assert w + parts[0] == parts[0];
    } else {
      assert (w + t)[1..] == w[1..] + t;
      SplitWord(w[1..], t, sep);
      assert [w[0]] + (w[1..] + Split(t, sep)[0]) == w + Split(t, sep)[0];
    }
  }

  /** Round trip: splitting a join of separator-free parts gives the parts back. */
  lemma {:induction false} SplitJoin(sep: char, parts: seq<string>)
    requires |parts| >= 1
    requires forall k :: 0 <= k < |parts| ==> sep !in parts[k]
    ensures Split(Join(sep, parts), sep) == parts
  {
    if |parts| == 1 {
      SplitWord(parts[0], "", sep);
      assert parts[0] + "" == parts[0];
    } else {
      var rest := Join(sep, parts[1..]);
      assert parts[0] + [sep] + rest == parts[0] + ([sep] + rest);
      SplitWord(parts[0], [sep] + rest, sep);
      assert ([sep] + rest)[1..] == rest;
      SplitJoin(sep, parts[1..]);
      assert Split([sep] + rest, sep) == [""] + parts[1..];
      assert parts[0] + "" == parts[0];
    }
  }

  /** Joining a part in front of at least one other part. */
  lemma JoinCons(sep: char, first: string, rest: seq<string>)
    requires |rest| >= 1
    ensures Join(sep, [first] + rest) == first + [sep] + Join(sep, rest)
  {
    assert ([first] + rest)[1..] == rest;
  }

  /** The first step of a split: the first character either ends a piece or extends it. */
  lemma SplitCons(s: string, sep: char)
    requires s != []
    ensures s[0] == sep ==> Split(s, sep) == [""] + Split(s[1..], sep)
    ensures s[0] != sep ==>
              Split(s, sep) == [[s[0]] + Split(s[1..], sep)[0]] + Split(s[1..], sep)[1..]
  {
  }

  /** Round trip: joining what a split returned restores the text. */
  lemma {:induction false} JoinSplit(s: string, sep: char)
    ensures Join(sep, Split(s, sep)) == s
  {
    if s != [] {
      var rest := Split(s[1..], sep);
      var parts := Split(s, sep);
      SplitCons(s, sep);
      JoinSplit(s[1..], sep);
      assert Join(sep, rest) == s[1..];
      assert s == [s[0]] + s[1..];
      if s[0] == sep {
        assert parts == [""] + rest;
        JoinCons(sep, "", rest);
        assert Join(sep, parts) == [sep] + Join(sep, rest);
      } else if |rest| == 1 {
        assert parts == [[s[0]] + rest[0]];
        assert Join(sep, parts) == [s[0]] + Join(sep, rest);
      } else {
        assert parts == [[s[0]] + rest[0]] + rest[1..];
        JoinCons(sep, [s[0]] + rest[0], rest[1..]);
        assert [rest[0]] + rest[1..] == rest;
        JoinCons(sep, rest[0], rest[1..]);
        assert Join(sep, parts) == [s[0]] + Join(sep, rest);
      }
    }
  }

  /** `pat` occurs in `s` starting at index `i`. */
  predicate OccursAt(s: string, pat: string, i: nat)
  {
    i + |pat| <= |s| && s[i..i + |pat|] == pat
  }

  /** `pat in s`. */
  predicate Occurs(s: string, pat: string)
  {
    exists i: nat | i <= |s| :: OccursAt(s, pat, i)
  }

  /** `s.find(pat, i)`, with `None` for -1. */
  function IndexFrom(s: string, pat: string, i: nat): (r: Option<nat>)
    ensures r.Some? ==> i <= r.value && OccursAt(s, pat, r.value)
    ensures r.Some? ==> forall j: nat :: i <= j < r.value ==> !OccursAt(s, pat, j)
    ensures r.None? ==> forall j: nat :: i <= j ==> !OccursAt(s, pat, j)
    decreases |s| - i
  {
    if i + |pat| > |s| then None
    else if s[i..i + |pat|] == pat then Some(i)
    else IndexFrom(s, pat, i + 1)
  }

  /** `s.find(pat)`: the first occurrence, or `None` when there is none. */
  function IndexOf(s: string, pat: string): (r: Option<nat>)
    ensures r.Some? ==> OccursAt(s, pat, r.value)
    ensures r.Some? ==> forall j: nat :: j < r.value ==> !OccursAt(s, pat, j)
    ensures r.None? <==> !Occurs(s, pat)
  {
    IndexFrom(s, pat, 0)
  }

  /** `s.replace(pat, '')`: scanning left to right, every non-overlapping occurrence of `pat` is deleted. */
  function RemoveAll(s: string, pat: string): string
    requires |pat| > 0
    decreases |s|
  {
    if |s| < |pat| then s
    else if s[..|pat|] == pat then RemoveAll(s[|pat|..], pat)
    else [s[0]] + RemoveAll(s[1..], pat)
  }

  /** Deleting never lengthens the text, and what is left are characters of the input. */
  lemma {:induction false} RemoveAllShrinks(s: string, pat: string)
    requires |pat| > 0
    ensures |RemoveAll(s, pat)| <= |s|
    ensures forall c :: c in RemoveAll(s, pat) ==> c in s
    decreases |s|
  {
    if |s| >= |pat| {
      if s[..|pat|] == pat {
        RemoveAllShrinks(s[|pat|..], pat);
        forall c | c in s[|pat|..] ensures c in s {
          var k :| 0 <= k < |s[|pat|..]| && s[|pat|..][k] == c;
          assert s[|pat| + k] == c;
        }
      } else {
        RemoveAllShrinks(s[1..], pat);
        forall c | c in s[1..] ensures c in s {
          var k :| 0 <= k < |s[1..]| && s[1..][k] == c;
          assert s[1 + k] == c;
        }
      }
    }
  }

  /** An occurrence in a suffix is an occurrence in the whole text. */
  lemma ShiftOccurrence(s: string, pat: string, j: nat)
    requires |s| > 0 && OccursAt(s[1..], pat, j)
    ensures OccursAt(s, pat, j + 1)
  {
    assert s[1..][j..j + |pat|] == s[j + 1..j + 1 + |pat|];
  }

  /** Removing a pattern that does not occur changes nothing. */
  lemma {:induction false} RemoveAllAbsent(s: string, pat: string)
    requires |pat| > 0 && !Occurs(s, pat)
    ensures RemoveAll(s, pat) == s
    decreases |s|
  {
    if |s| >= |pat| {
      assert !OccursAt(s, pat, 0);
      if Occurs(s[1..], pat) {
        var j: nat :| OccursAt(s[1..], pat, j);
        ShiftOccurrence(s, pat, j);
      }
      RemoveAllAbsent(s[1..], pat);
      assert [s[0]] + s[1..] == s;
    }
  }

  /** A leading occurrence is deleted and the scan resumes right after it. */
  lemma RemoveAllLeading(pat: string, rest: string)
    requires |pat| > 0
    ensures RemoveAll(pat + rest, pat) == RemoveAll(rest, pat)
  {
    assert (pat + rest)[..|pat|] == pat;
    assert (pat + rest)[|pat|..] == rest;
  }

  /** `i` is where the first occurrence of `pat` in `s` starts. */
  predicate FirstAt(s: string, pat: string, i: nat)
  {
    OccursAt(s, pat, i) && forall j: nat :: j < i ==> !OccursAt(s, pat, j)
  }

  /**
   * `replace(pat, '')` as a find-and-resume loop: the text before the first
   * occurrence is kept, that occurrence is deleted, and the scan resumes
   * right after it.
   */
  lemma {:induction false} RemoveAllFirst(s: string, pat: string, i: nat)
    requires |pat| > 0 && FirstAt(s, pat, i)
    ensures RemoveAll(s, pat) == s[..i] + RemoveAll(s[i + |pat|..], pat)
    decreases i, 1
  {
    if i == 0 {
      DropLeading(s, pat);
    } else {
      KeepFirst(s, pat, i);
    }
  }

  /** An occurrence at the very start is deleted, and the scan resumes after it. */
  lemma DropLeading(s: string, pat: string)
    requires |pat| > 0 && OccursAt(s, pat, 0)
    ensures RemoveAll(s, pat) == s[..0] + RemoveAll(s[0 + |pat|..], pat)
  {
    assert s[..|pat|] == s[0..|pat|];
    assert s[..0] == [];
  }

  /** The step of `RemoveAllFirst`: a first character that starts no occurrence is kept. */
  lemma {:induction false} KeepFirst(s: string, pat: string, i: nat)
    requires 0 < i && |pat| > 0 && FirstAt(s, pat, i)
    ensures RemoveAll(s, pat) == s[..i] + RemoveAll(s[i + |pat|..], pat)
    decreases i, 0
  {
    FirstInSuffix(s, pat, i);
    RemoveAllFirst(s[1..], pat, i - 1);
    var t, tail := s[1..], RemoveAll(s[i + |pat|..], pat);
    assert t[i - 1 + |pat|..] == s[i + |pat|..];
    assert RemoveAll(t, pat) == t[..i - 1] + tail;
    assert [s[0]] + t[..i - 1] == s[..i];
    AppendAssoc([s[0]], t[..i - 1], tail);
    assert [s[0]] + RemoveAll(t, pat) == s[..i] + tail;
  }

  /** Concatenation is associative. */
  lemma AppendAssoc<T>(a: seq<T>, b: seq<T>, c: seq<T>)
    ensures a + (b + c) == (a + b) + c
  {
  }

  /** A first occurrence at `i > 0` is the first occurrence, at `i - 1`, of the text after its first character. */
  lemma FirstInSuffix(s: string, pat: string, i: nat)
    requires 0 < i && |pat| > 0 && FirstAt(s, pat, i)
    ensures FirstAt(s[1..], pat, i - 1)
    ensures i + |pat| <= |s|
    ensures RemoveAll(s, pat) == [s[0]] + RemoveAll(s[1..], pat)
  {
    var t := s[1..];
    assert t[i - 1..i - 1 + |pat|] == s[i..i + |pat|];
    forall j: nat | j < i - 1 ensures !OccursAt(t, pat, j) {
      if OccursAt(t, pat, j) {
        ShiftOccurrence(s, pat, j);
      }
    }
    assert !OccursAt(s, pat, 0);
  }

  /** The same step, with the first occurrence found by `IndexOf`. */
  lemma RemoveAllAt(s: string, pat: string, i: nat)
    requires |pat| > 0 && IndexOf(s, pat) == Some(i)
    ensures RemoveAll(s, pat) == s[..i] + RemoveAll(s[i + |pat|..], pat)
  {
    RemoveAllFirst(s, pat, i);
  }

  /** A text without `c` has no occurrence of a pattern that contains `c`. */
  lemma AbsentChar(s: string, pat: string, c: char)
    requires c in pat && c !in s
    ensures !Occurs(s, pat)
  {
  }
}
