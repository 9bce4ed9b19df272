/** The string built-ins the catalogue relies on: `toLowerCase`,
    `toUpperCase`, `includes`, `split(",")` and `join(",")`.
    Case mapping covers the ASCII letters only. */
module Text {

  predicate IsUpper(c: char) { 'A' <= c <= 'Z' }

  predicate IsLower(c: char) { 'a' <= c <= 'z' }

  function LowerChar(c: char): char
  {
    if IsUpper(c) then (c as int + 32) as char else c
  }

  function UpperChar(c: char): char
  {
    if IsLower(c) then (c as int - 32) as char else c
  }

  /** `s.toLowerCase()`: same length, each upper-case letter replaced by
      its lower-case letter (32 code points higher), every other character
      kept. */
  function ToLower(s: string): (r: string)
    ensures |r| == |s|
    ensures forall i :: 0 <= i < |s| && IsUpper(s[i]) ==> r[i] as int == s[i] as int + 32
    ensures forall i :: 0 <= i < |s| && !IsUpper(s[i]) ==> r[i] == s[i]
    ensures forall i :: 0 <= i < |r| ==> !IsUpper(r[i])
  {
    seq(|s|, i requires 0 <= i < |s| => LowerChar(s[i]))
  }

  /** `s.toUpperCase()`: same length, each lower-case letter replaced by
      its upper-case letter (32 code points lower), every other character
      kept. */
  function ToUpper(s: string): (r: string)
    ensures |r| == |s|
    ensures forall i :: 0 <= i < |s| && IsLower(s[i]) ==> r[i] as int == s[i] as int - 32
    ensures forall i :: 0 <= i < |s| && !IsLower(s[i]) ==> r[i] == s[i]
    ensures forall i :: 0 <= i < |r| ==> !IsLower(r[i])
  {
    seq(|s|, i requires 0 <= i < |s| => UpperChar(s[i]))
  }

  /** Lower-casing is idempotent. */
  lemma ToLowerIdempotent(s: string)
    ensures ToLower(ToLower(s)) == ToLower(s)
  {
  }

  /** Lower-casing forgets any earlier upper-casing: the two spellings of a
      query compare equal once both are lower-cased. */
  lemma ToLowerOfToUpper(s: string)
    ensures ToLower(ToUpper(s)) == ToLower(s)
  {
    forall i | 0 <= i < |s|
      ensures ToLower(ToUpper(s))[i] == ToLower(s)[i]
    {
    }
  }

  /** `needle` occurs in `hay` starting at offset `i`. */
  predicate OccursAt(hay: string, needle: string, i: nat)
  {
    i + |needle| <= |hay| && hay[i..i + |needle|] == needle
  }

  /** `hay.includes(needle)`: `needle` occurs at some offset of `hay`. So
      every string includes the empty string and itself, and nothing longer
      than itself. */
  predicate Includes(hay: string, needle: string): (b: bool)
    ensures needle == [] ==> b
    ensures needle == hay ==> b
    ensures b ==> |needle| <= |hay|
  {
    assert needle == [] || needle == hay ==> OccursAt(hay, needle, 0);
    exists i: nat :: i <= |hay| && OccursAt(hay, needle, i)
  }

  /** A string built around `needle` includes it. */
  lemma IncludesInfix(pre: string, needle: string, post: string)
    ensures Includes(pre + needle + post, needle)
  {
    var hay := pre + needle + post;
    assert hay[|pre|..|pre| + |needle|] == needle;
    assert OccursAt(hay, needle, |pre|);
  }

  /** `needle` occurs in `hay` at offset `i` when case is ignored. */
  ghost predicate OccursAtIgnoringCase(hay: string, needle: string, i: nat)
  {
    i + |needle| <= |hay| &&
    forall k :: 0 <= k < |needle| ==> LowerChar(hay[i + k]) == LowerChar(needle[k])
  }

  /** Case-insensitive substring test, stated character by character. */
  ghost predicate IncludesIgnoringCase(hay: string, needle: string)
  {
    exists i: nat :: OccursAtIgnoringCase(hay, needle, i)
  }

  /** Lower-casing both sides and then testing `includes` is exactly the
      case-insensitive substring test. */
  lemma IncludesLowered(hay: string, needle: string)
    ensures Includes(ToLower(hay), ToLower(needle)) <==> IncludesIgnoringCase(hay, needle)
  {
    var h, n := ToLower(hay), ToLower(needle);
    forall i: nat
      ensures OccursAt(h, n, i) <==> OccursAtIgnoringCase(hay, needle, i)
    {
      if i + |needle| <= |hay| {
        if OccursAt(h, n, i) {
          forall k | 0 <= k < |needle|
            ensures LowerChar(hay[i + k]) == LowerChar(needle[k])
          {
            assert h[i..i + |n|][k] == n[k];
          }
        }
        if OccursAtIgnoringCase(hay, needle, i) {
          assert h[i..i + |n|] == n;
        }
      }
    }
    if Includes(h, n) {
      var i: nat :| i <= |h| && OccursAt(h, n, i);
      assert OccursAtIgnoringCase(hay, needle, i);
    }
    if IncludesIgnoringCase(hay, needle) {
      var i: nat :| OccursAtIgnoringCase(hay, needle, i);
      assert OccursAt(h, n, i);
    }
  }

  /** Text added in front keeps an occurrence. */
  lemma IncludesPrepend(more: string, hay: string, needle: string)
    requires Includes(hay, needle)
    ensures Includes(more + hay, needle)
  {
    var i: nat :| i <= |hay| && OccursAt(hay, needle, i);
    assert (more + hay)[|more| + i..|more| + i + |needle|] == hay[i..i + |needle|];
    assert OccursAt(more + hay, needle, |more| + i);
  }

  /** Text added behind keeps an occurrence. */
  lemma IncludesAppend(hay: string, more: string, needle: string)
    requires Includes(hay, needle)
    ensures Includes(hay + more, needle)
  {
    var i: nat :| i <= |hay| && OccursAt(hay, needle, i);
    assert (hay + more)[i..i + |needle|] == hay[i..i + |needle|];
    assert OccursAt(hay + more, needle, i);
  }
  /** A text that holds `b` holds whatever `b` holds. */
  lemma IncludesTransitive(a: string, b: string, c: string)
    requires Includes(a, b) && Includes(b, c)
    ensures Includes(a, c)
  {
    var i: nat :| i <= |a| && OccursAt(a, b, i);
    var j: nat :| j <= |b| && OccursAt(b, c, j);
    forall k | 0 <= k < |c|
      ensures a[i + j + k] == c[k]
    {
      assert a[i + j + k] == a[i..i + |b|][j + k];
      assert b[j + k] == b[j..j + |c|][k];
    }
    assert a[i + j..i + j + |c|] == c;
    assert OccursAt(a, c, i + j);
  }


  /** `s.split(sep)`: the pieces between separators, at least one piece,
      none of them holding the separator. */
  function Split(s: string, sep: char): (parts: seq<string>)
    ensures |parts| >= 1
    ensures forall i :: 0 <= i < |parts| ==> sep !in parts[i]
    decreases |s|
  {
    if s == [] then [""]
    else
      var rest := Split(s[1..], sep);
      if s[0] == sep then [""] + rest
      else [[s[0]] + rest[0]] + rest[1..]
  }

  /** `parts.join(sep)`: empty for no piece; otherwise the first piece,
      then each further piece behind a separator. */
  function Join(parts: seq<string>, sep: char): (s: string)
    ensures |parts| == 0 ==> s == ""
    ensures |parts| >= 1 ==> |s| >= |parts[0]| && s[..|parts[0]|] == parts[0]
    ensures |parts| >= 2 ==> |s| > |parts[0]| && s[|parts[0]|] == sep
  {
    if |parts| == 0 then ""
    else if |parts| == 1 then parts[0]
    else parts[0] + [sep] + Join(parts[1..], sep)
  }

  /** Joining the pieces of a split gives back the original string. */
  lemma {:induction false} JoinSplit(s: string, sep: char)
    ensures Join(Split(s, sep), sep) == s
    decreases |s|
  {
    if s != [] {
      var rest := Split(s[1..], sep);
      JoinSplit(s[1..], sep);
      if s[0] == sep {
        assert Split(s, sep) == [""] + rest;
        assert ([""] + rest)[1..] == rest;
      } else {
        var parts := Split(s, sep);
        assert parts == [[s[0]] + rest[0]] + rest[1..];
        if |rest| > 1 {
          assert parts[1..] == rest[1..];
        }
      }
    }
  }

  /** A string without separators splits into itself alone. */
  lemma {:induction false} SplitNoSeparator(a: string, sep: char)
    requires sep !in a
    ensures Split(a, sep) == [a]
    decreases |a|
  {
    if a != [] {
      SplitNoSeparator(a[1..], sep);
      assert [a[0]] + a[1..] == a;
    }
  }

  /** A separator-free first piece comes out of a split on its own. */
  lemma {:induction false} SplitAfterPiece(a: string, b: string, sep: char)
    requires sep !in a
    ensures Split(a + [sep] + b, sep) == [a] + Split(b, sep)
    decreases |a|
  {
    var s := a + [sep] + b;
    if a == [] {
      assert s[1..] == b;
    } else {
      assert s[1..] == a[1..] + [sep] + b;
      SplitAfterPiece(a[1..], b, sep);
      assert [a[0]] + a[1..] == a;
    }
  }

  /** Splitting the join of separator-free pieces gives back the pieces. */
  lemma {:induction false} SplitJoin(parts: seq<string>, sep: char)
    requires |parts| >= 1
    requires forall i :: 0 <= i < |parts| ==> sep !in parts[i]
    ensures Split(Join(parts, sep), sep) == parts
    decreases |parts|
  {
    if |parts| == 1 {
      SplitNoSeparator(parts[0], sep);
    } else {
      SplitJoin(parts[1..], sep);
      SplitAfterPiece(parts[0], Join(parts[1..], sep), sep);
      assert [parts[0]] + parts[1..] == parts;
    }
  }
}
