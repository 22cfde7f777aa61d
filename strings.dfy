/**
 * The few string operations of the .NET base library that the dev tools rely on:
 * ordinal case-insensitive equality, `Trim(params char[])` and `Replace(string, string)`.
 */
module Strings {

  /** Upper-case mapping used by `StringComparison.OrdinalIgnoreCase`, restricted to ASCII letters. */
  function ToUpperAscii(c: char): (u: char)
    ensures 'a' <= c <= 'z' ==> 'A' <= u <= 'Z'
    ensures !('a' <= c <= 'z') ==> u == c
  {
    if 'a' <= c <= 'z' then (c as int - 32) as char else c
  }

  /** `a.Equals(b, StringComparison.OrdinalIgnoreCase)`. */
  predicate EqualsIgnoreCase(a: string, b: string)
  {
    |a| == |b| && forall i :: 0 <= i < |a| ==> ToUpperAscii(a[i]) == ToUpperAscii(b[i])
  }

  lemma EqualsIgnoreCaseIsEquivalence(a: string, b: string, c: string)
    ensures EqualsIgnoreCase(a, a)
    ensures EqualsIgnoreCase(a, b) ==> EqualsIgnoreCase(b, a)
    ensures EqualsIgnoreCase(a, b) && EqualsIgnoreCase(b, c) ==> EqualsIgnoreCase(a, c)
  {
  }

  /** The whole string upper-cased, character by character. */
  function UpperAscii(s: string): (r: string)
    ensures |r| == |s| && forall i :: 0 <= i < |s| ==> r[i] == ToUpperAscii(s[i])
  {
    if s == [] then [] else [ToUpperAscii(s[0])] + UpperAscii(s[1..])
  }

  /** Two strings are equal ignoring case exactly when their upper-case forms are equal. */
  lemma EqualsIgnoreCaseIsUpperEquality(a: string, b: string)
    ensures EqualsIgnoreCase(a, b) <==> UpperAscii(a) == UpperAscii(b)
  {
    if UpperAscii(a) == UpperAscii(b) {
      forall i | 0 <= i < |a| ensures ToUpperAscii(a[i]) == ToUpperAscii(b[i]) {
        assert UpperAscii(a)[i] == UpperAscii(b)[i];
      }
    }
  }

  /** `s.StartsWith(c)`. */
  predicate StartsWith(s: string, c: char)
  {
    |s| > 0 && s[0] == c
  }

  /** `s.EndsWith(suffix, StringComparison.OrdinalIgnoreCase)`. */
  predicate EndsWithIgnoreCase(s: string, suffix: string)
  {
    |suffix| <= |s| && EqualsIgnoreCase(s[|s| - |suffix|..], suffix)
  }

  /** Removes every leading character that belongs to `cs`. */
  function TrimStart(s: string, cs: set<char>): (r: string)
    ensures |r| <= |s| && r == s[|s| - |r|..]
    ensures r == [] || r[0] !in cs
    ensures forall i :: 0 <= i < |s| - |r| ==> s[i] in cs
    decreases |s|
  {
    if s != [] && s[0] in cs then TrimStart(s[1..], cs) else s
  }

  /** Removes every trailing character that belongs to `cs`. */
  function TrimEnd(s: string, cs: set<char>): (r: string)
    ensures |r| <= |s| && r == s[..|r|]
    ensures r == [] || r[|r| - 1] !in cs
    ensures forall i :: |r| <= i < |s| ==> s[i] in cs
    decreases |s|
  {
    if s != [] && s[|s| - 1] in cs then TrimEnd(s[..|s| - 1], cs) else s
  }

  /** `s.Trim(cs)`: both ends. */
  function Trim(s: string, cs: set<char>): string
  {
    TrimEnd(TrimStart(s, cs), cs)
  }

  /** The trimmed string is empty exactly when every character of the input is a trimmed one. */
  lemma TrimEmptyIff(s: string, cs: set<char>)
    ensures Trim(s, cs) == [] <==> forall i :: 0 <= i < |s| ==> s[i] in cs
  {
    var t := TrimStart(s, cs);
    if Trim(s, cs) == [] {
      // every kept character would be trimmed at the end, but the first one is not trimmed at the start
      assert t == [];
    } else {
      var r := Trim(s, cs);
      assert r[0] == t[0] == s[|s| - |t|];
    }
  }

  /** `pat` occurs in `s` at index `i`. */
  predicate OccursAt(s: string, pat: string, i: nat)
  {
    i + |pat| <= |s| && s[i..i + |pat|] == pat
  }

  /**
   * `s.Replace(pat, rep)`: ordinal, left to right, non-overlapping. The .NET method throws on
   * an empty `pat`; every call in the dev tools passes a non-empty literal.
   */
  function ReplaceAll(s: string, pat: string, rep: string): string
    requires pat != []
    decreases |s|
  {
    if |s| < |pat| then s
    else if s[..|pat|] == pat then rep + ReplaceAll(s[|pat|..], pat, rep)
    else [s[0]] + ReplaceAll(s[1..], pat, rep)
  }

  /** An occurrence in the tail of `s` is an occurrence in `s`, one position later. */
  lemma OccursInTail(s: string, pat: string, i: nat)
    requires s != [] && OccursAt(s[1..], pat, i)
    ensures OccursAt(s, pat, i + 1)
  {
    assert s[1..][i..i + |pat|] == s[i + 1..i + 1 + |pat|];
  }

  /** A string in which `pat` does not occur is left as it is. */
  lemma {:induction false} ReplaceAbsent(s: string, pat: string, rep: string)
    requires pat != []
    requires forall i: nat :: !OccursAt(s, pat, i)
    ensures ReplaceAll(s, pat, rep) == s
    decreases |s|
  {
    if |s| >= |pat| {
      assert !OccursAt(s, pat, 0);
      forall i: nat | OccursAt(s[1..], pat, i) ensures false {
        OccursInTail(s, pat, i);
      }
      ReplaceAbsent(s[1..], pat, rep);
    }
  }

  /** Text before the first occurrence of `pat` is copied unchanged. */
  lemma {:induction false} ReplaceSkipsPrefix(a: string, b: string, pat: string, rep: string)
    requires pat != []
    requires forall i: nat :: i < |a| ==> !OccursAt(a + b, pat, i)
    ensures ReplaceAll(a + b, pat, rep) == a + ReplaceAll(b, pat, rep)
    decreases |a|
  {
    if a != [] {
      var s := a + b;
      var t := a[1..] + b;
      assert s[1..] == t;
      forall i: nat | i < |a[1..]| && OccursAt(t, pat, i) ensures false {
        OccursInTail(s, pat, i);
      }
      ReplaceSkipsPrefix(a[1..], b, pat, rep);
      var tail := ReplaceAll(b, pat, rep);
      assert ReplaceAll(t, pat, rep) == a[1..] + tail;
      if |s| >= |pat| {
        assert !OccursAt(s, pat, 0);
        assert s[..|pat|] != pat;
        assert ReplaceAll(s, pat, rep) == [a[0]] + ReplaceAll(s[1..], pat, rep);
        assert [a[0]] + (a[1..] + tail) == a + tail;
      } else {
        assert ReplaceAll(s, pat, rep) == s;
        assert tail == b;
      }
    } else {
      assert a + b == b;
    }
  }

  /**
   * A template holding one placeholder, with no earlier occurrence and none in the rest,
   * has exactly that placeholder swapped for the replacement.
   */
  lemma ReplaceSinglePlaceholder(a: string, pat: string, c: string, rep: string)
    requires pat != []
    requires forall i: nat :: i < |a| ==> !OccursAt(a + pat + c, pat, i)
    requires forall i: nat :: !OccursAt(c, pat, i)
    ensures ReplaceAll(a + pat + c, pat, rep) == a + rep + c
  {
    assert a + pat + c == a + (pat + c);
    ReplaceSkipsPrefix(a, pat + c, pat, rep);
    assert (pat + c)[..|pat|] == pat && (pat + c)[|pat|..] == c;
    ReplaceAbsent(c, pat, rep);
  }
}
