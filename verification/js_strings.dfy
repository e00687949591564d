/**
 * The JavaScript string operations the adapter relies on: `toLowerCase`,
 * `startsWith`, `split` with a string separator and no limit, and the
 * array element access `parts[i]` that yields `undefined` out of range.
 * Strings are `seq<char>`; a Dafny `char` is a Unicode scalar value, not a
 * UTF-16 code unit.
 */
module JsStrings {
  import opened Wrappers

  /** Lower-cases one character; only the ASCII letters A-Z change. */
  function LowerChar(c: char): char {
    if 'A' <= c <= 'Z' then (c as int + 32) as char else c
  }

  /** `s.toLowerCase()`, restricted to ASCII (HTTP header names are ASCII tokens). */
  function ToLower(s: string): string {
    seq(|s|, i requires 0 <= i < |s| => LowerChar(s[i]))
  }

  /** `s.startsWith(prefix)` */
  predicate StartsWith(s: string, prefix: string) {
    prefix <= s
  }

  /** `parts[i]`: the element, or `undefined` past the end. */
  function At(parts: seq<string>, i: nat): (r: Option<string>)
    ensures r.Some? <==> i < |parts|
    ensures r.Some? ==> r.value == parts[i]
  {
    if i < |parts| then Some(parts[i]) else None
  }

  /** `s.split(sep)`: an empty separator splits into single characters. */
  function Split(s: string, sep: string): seq<string> {
    if sep == [] then seq(|s|, i requires 0 <= i < |s| => [s[i]])
    else SplitFrom(s, sep, [])
  }

  /**
   * Splits `s` on the non-overlapping occurrences of `sep`, scanning left to
   * right; `cur` is the text of the part read so far.
   */
  function SplitFrom(s: string, sep: string, cur: string): (parts: seq<string>)
    requires sep != []
    ensures |parts| >= 1
    decreases |s|
  {
    if |s| < |sep| then [cur + s]
    else if s[..|sep|] == sep then [cur] + SplitFrom(s[|sep|..], sep, [])
    else SplitFrom(s[1..], sep, cur + [s[0]])
  }

  /** `parts.join(sep)` of a non-empty array. */
  function Join(parts: seq<string>, sep: string): string
    requires |parts| >= 1
  {
    if |parts| == 1 then parts[0] else parts[0] + sep + Join(parts[1..], sep)
  }

  /** `sep` occurs in `s` starting at index `i`. */
  predicate OccursAt(s: string, sep: string, i: int) {
    0 <= i && i + |sep| <= |s| && s[i..i + |sep|] == sep
  }

  /** `s.includes(sep)` is false. */
  predicate NoOccurrence(s: string, sep: string) {
    forall i | 0 <= i <= |s| :: !OccursAt(s, sep, i)
  }

  lemma {:induction false} SplitFromJoin(s: string, sep: string, cur: string)
    requires sep != []
    ensures Join(SplitFrom(s, sep, cur), sep) == cur + s
    decreases |s|
  {
    if |s| < |sep| {
    } else if s[..|sep|] == sep {
      SplitFromJoin(s[|sep|..], sep, []);
      assert s == sep + s[|sep|..];
    } else {
      SplitFromJoin(s[1..], sep, cur + [s[0]]);
      assert cur + [s[0]] + s[1..] == cur + s;
    }
  }

  /** Joining the parts with the separator gives back the string. */
  lemma SplitJoinRoundTrip(s: string, sep: string)
    requires sep != []
    ensures Join(Split(s, sep), sep) == s
  {
    SplitFromJoin(s, sep, []);
  }

  lemma {:induction false} SplitFromNoOccurrence(s: string, sep: string, cur: string)
    requires sep != [] && NoOccurrence(s, sep)
    ensures SplitFrom(s, sep, cur) == [cur + s]
    decreases |s|
  {
    if |s| >= |sep| {
      assert !OccursAt(s, sep, 0);
      forall i ensures !OccursAt(s[1..], sep, i) {
        if OccursAt(s[1..], sep, i) {
          assert s[1..][i..i + |sep|] == s[i + 1..i + 1 + |sep|];
          assert OccursAt(s, sep, i + 1);
        }
      }
      SplitFromNoOccurrence(s[1..], sep, cur + [s[0]]);
      assert cur + [s[0]] + s[1..] == cur + s;
    }
  }

  /** A string without the separator splits into itself alone. */
  lemma SplitNoOccurrence(s: string, sep: string)
    requires sep != [] && NoOccurrence(s, sep)
    ensures Split(s, sep) == [s]
  {
    SplitFromNoOccurrence(s, sep, []);
    assert [] + s == s;
  }

  /** The text after a leading separator is part 1 when it holds no further separator. */
  lemma SplitLeadingSeparator(sep: string, v: string)
    requires sep != [] && NoOccurrence(v, sep)
    ensures Split(sep + v, sep) == [[], v]
  {
    var s := sep + v;
    assert s[..|sep|] == sep && s[|sep|..] == v;
    SplitFromNoOccurrence(v, sep, []);
    assert [] + v == v;
  }

  /** Splitting on one character: the text before its first occurrence is a part of its own. */
  lemma {:induction false} SplitFromChar(a: string, c: char, b: string, cur: string)
    requires c !in a
    ensures SplitFrom(a + [c] + b, [c], cur) == [cur + a] + SplitFrom(b, [c], [])
    decreases |a|
  {
    var s := a + [c] + b;
    if a == [] {
      assert s[..1] == [c] && s[1..] == b;
      assert cur + a == cur;
    } else {
      assert s[..1] != [c] by { assert s[0] == a[0]; }
      assert s[1..] == a[1..] + [c] + b;
      SplitFromChar(a[1..], c, b, cur + [a[0]]);
      assert cur + [a[0]] + a[1..] == cur + a;
    }
  }

  lemma NoCharOccurrence(s: string, c: char)
    requires c !in s
    ensures NoOccurrence(s, [c])
  {
    forall i | 0 <= i <= |s| ensures !OccursAt(s, [c], i) {
      if i + 1 <= |s| {
        assert s[i..i + 1] == [s[i]];
      }
    }
  }
}
