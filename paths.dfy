/**
 * The part of `System.IO.Path` the dev tools use, over a single directory separator.
 * Paths are strings; a rooted path starts with the separator.
 */
module Paths {
  import opened Wrappers
  import opened Strings

  type Path = string

  const Sep: char := '\\'

  predicate IsRooted(p: Path)
  {
    |p| > 0 && p[0] == Sep
  }

  /** One path component: a non-empty name without a separator. */
  predicate IsComponent(n: string)
  {
    n != [] && Sep !in n
  }

  predicate EndsWithSep(p: Path)
  {
    |p| > 0 && p[|p| - 1] == Sep
  }

  /** `Path.Combine(a, b)`: a rooted or empty-prefixed `b` wins; one separator is inserted when needed. */
  function Combine(a: Path, b: Path): Path
  {
    if a == [] then b
    else if b == [] then a
    else if IsRooted(b) then b
    else if EndsWithSep(a) then a + b
    else a + [Sep] + b
  }

  /** `Path.GetFileName(p)`: the longest suffix without a separator. */
  function FileName(p: Path): (r: string)
    ensures Sep !in r
    ensures |r| <= |p| && r == p[|p| - |r|..]
    ensures |r| < |p| ==> p[|p| - |r| - 1] == Sep
    decreases |p|
  {
    if p == [] || p[|p| - 1] == Sep then [] else FileName(p[..|p| - 1]) + [p[|p| - 1]]
  }

  /** `Path.GetDirectoryName(p)`: everything before the last separator; null for a root. */
  function DirectoryName(p: Path): (r: Option<Path>)
    ensures r.Some? ==> |r.value| < |p|
  {
    if p == [] || p == [Sep] then None
    else
      var head := p[..|p| - |FileName(p)|];
      if head == [] then Some([])
      else if head == [Sep] then Some([Sep])
      else Some(head[..|head| - 1])
  }

  /** `p` lies strictly below directory `d`. */
  predicate Under(d: Path, p: Path)
  {
    |d| < |p| && p[..|d|] == d && (EndsWithSep(d) || p[|d|] == Sep)
  }

  predicate AtOrUnder(d: Path, p: Path)
  {
    p == d || Under(d, p)
  }

  /**
   * A path and the directories above it, as `GetDirectoryName` walks up from it: the directories
   * `Directory.CreateDirectory` makes sure of.
   */
  function Lineage(p: Path): (r: set<Path>)
    ensures p != [] ==> p in r
    ensures forall q :: q in r ==> q != [] && |q| <= |p|
    decreases |p|
  {
    if p == [] then {}
    else
      var parent := DirectoryName(p);
      {p} + (if parent.Some? then Lineage(parent.value) else {})
  }

  /** Drops the last '.' of a file name and everything after it. */
  function StripExtension(n: string): (r: string)
    ensures |r| <= |n| && r == n[..|r|]
    ensures '.' !in n ==> r == n
    ensures '.' in n ==> |r| < |n| && n[|r|] == '.' && '.' !in n[|r| + 1..]
    decreases |n|
  {
    if '.' !in n then n
    else if n[|n| - 1] == '.' then n[..|n| - 1]
    else
      var r := StripExtension(n[..|n| - 1]);
      assert '.' in n[..|n| - 1] by {
        var i :| 0 <= i < |n| && n[i] == '.';
        assert n[..|n| - 1][i] == '.';
      }
      assert n[|r| + 1..] == n[..|n| - 1][|r| + 1..] + [n[|n| - 1]];
      r
  }

  /** `Path.GetFileNameWithoutExtension(p)`. */
  function FileNameWithoutExtension(p: Path): string
  {
    StripExtension(FileName(p))
  }

  /** `Path.GetFullPath(p)` relative to the current directory; `.` and `..` are not normalised. */
  function FullPath(cwd: Path, p: Path): Path
  {
    if IsRooted(p) then p else Combine(cwd, p)
  }

  /** The non-empty components of a path, in order. */
  function Components(p: Path): (cs: seq<string>)
    ensures forall i :: 0 <= i < |cs| ==> IsComponent(cs[i])
    decreases |p|
  {
    if p == [] then []
    else
      var n := FileName(p);
      if n == [] then Components(p[..|p| - 1]) else Components(p[..|p| - |n|]) + [n]
  }

  /** Components joined by the separator. */
  function Join(cs: seq<string>): Path
  {
    if cs == [] then []
    else if |cs| == 1 then cs[0]
    else Join(cs[..|cs| - 1]) + [Sep] + cs[|cs| - 1]
  }

  /** Number of leading components two paths share, compared ignoring case as Windows does. */
  function CommonPrefixLength(a: seq<string>, b: seq<string>): (k: nat)
    ensures k <= |a| && k <= |b|
    ensures forall i :: 0 <= i < k ==> EqualsIgnoreCase(a[i], b[i])
    ensures k < |a| && k < |b| ==> !EqualsIgnoreCase(a[k], b[k])
  {
    if a == [] || b == [] || !EqualsIgnoreCase(a[0], b[0]) then 0
    else 1 + CommonPrefixLength(a[1..], b[1..])
  }

  /** `n` times the parent-directory component. */
  function Parents(n: nat): (r: seq<string>)
    ensures |r| == n
  {
    if n == 0 then [] else Parents(n - 1) + [".."]
  }

  /** `Path.GetRelativePath(relativeTo, path)`: up to the common ancestor, then down to `path`. */
  function RelativePath(cwd: Path, relativeTo: Path, path: Path): Path
  {
    var from := Components(FullPath(cwd, relativeTo));
    var to := Components(FullPath(cwd, path));
    var k := CommonPrefixLength(from, to);
    var parts := Parents(|from| - k) + to[k..];
    if parts == [] then "." else Join(parts)
  }

  /** A character other than the separator extends the file name. */
  lemma FileNameSnoc(p: Path, c: char)
    requires c != Sep
    ensures FileName(p + [c]) == FileName(p) + [c]
  {
    assert (p + [c])[..|p + [c]| - 1] == p;
  }

  /** The name after a separator (or alone) is the file name. */
  lemma {:induction false} FileNameAfterSep(h: Path, n: string)
    requires h == [] || EndsWithSep(h)
    requires Sep !in n
    ensures FileName(h + n) == n
    decreases |n|
  {
    if n == [] {
      assert h + n == h;
    } else {
      var n' := n[..|n| - 1];
      var c := n[|n| - 1];
      assert n == n' + [c];
      assert h + n == (h + n') + [c];
      FileNameAfterSep(h, n');
      FileNameSnoc(h + n', c);
    }
  }

  /** Combining a directory with a component gives that component as the file name. */
  lemma FileNameOfCombine(d: Path, n: string)
    requires IsComponent(n)
    ensures FileName(Combine(d, n)) == n
  {
    if d == [] {
      FileNameAfterSep([], n);
      assert [] + n == n;
    } else if EndsWithSep(d) {
      FileNameAfterSep(d, n);
    } else {
      FileNameAfterSep(d + [Sep], n);
    }
  }

  /** Combining a directory with a component appends exactly that component. */
  lemma ComponentsOfCombine(d: Path, n: string)
    requires IsComponent(n)
    ensures Components(Combine(d, n)) == Components(d) + [n]
  {
    var p := Combine(d, n);
    FileNameOfCombine(d, n);
    var head := p[..|p| - |n|];
    if d == [] {
      assert head == [];
    } else if EndsWithSep(d) {
      assert head == d;
    } else {
      assert head == d + [Sep];
      assert FileName(head) == [];
      assert head[..|head| - 1] == d;
    }
  }

  /** The parent of `Combine(d, n)` is `d`, for a non-empty directory without a trailing separator. */
  lemma DirectoryNameOfCombine(d: Path, n: string)
    requires IsComponent(n) && d != [] && !EndsWithSep(d)
    ensures DirectoryName(Combine(d, n)) == Some(d)
  {
    var p := Combine(d, n);
    FileNameOfCombine(d, n);
    assert p == d + [Sep] + n;
    var head := p[..|p| - |n|];
    assert head == d + [Sep];
  }

  lemma CombineRooted(d: Path, n: string)
    requires IsRooted(d) && IsComponent(n)
    ensures IsRooted(Combine(d, n)) && !EndsWithSep(Combine(d, n))
    ensures Combine(d, n) == (if EndsWithSep(d) then d + n else d + [Sep] + n)
  {
    assert !IsRooted(n);
  }

  /** `Combine(d, Combine(n, m))` and `Combine(Combine(d, n), m)` agree for two components. */
  lemma CombineNested(d: Path, n: string, m: string)
    requires IsComponent(n) && IsComponent(m)
    ensures Combine(n, m) == n + [Sep] + m
    ensures Combine(d, Combine(n, m)) == Combine(Combine(d, n), m)
  {
    assert !IsRooted(n) && !IsRooted(m) && !EndsWithSep(n);
    var nm := n + [Sep] + m;
    assert !IsRooted(nm) by { assert nm[0] == n[0]; }
    if d != [] {
      var dn := Combine(d, n);
      assert dn[|dn| - 1] == n[|n| - 1];
      if EndsWithSep(d) {
        assert d + nm == dn + [Sep] + m;
      } else {
        assert d + [Sep] + nm == dn + [Sep] + m;
      }
    }
  }

  lemma {:induction false} CommonPrefixOfExtension(a: seq<string>, b: seq<string>)
    ensures CommonPrefixLength(a, a + b) == |a| + CommonPrefixLength([], b)
  {
    if a != [] {
      EqualsIgnoreCaseIsEquivalence(a[0], a[0], a[0]);
      assert (a + b)[1..] == a[1..] + b;
      CommonPrefixOfExtension(a[1..], b);
    }
  }

  /** Relative to a rooted directory, a rooted path below it is its remaining components joined. */
  lemma RelativePathBelow(cwd: Path, a: Path, p: Path, rest: seq<string>)
    requires IsRooted(a) && IsRooted(p) && rest != []
    requires Components(p) == Components(a) + rest
    ensures RelativePath(cwd, a, p) == Join(rest)
  {
    var from := Components(a);
    var to := Components(p);
    CommonPrefixOfExtension(from, rest);
    var k := CommonPrefixLength(from, to);
    assert to[k..] == rest;
    assert Parents(|from| - k) + to[k..] == rest;
  }

  lemma JoinTwo(n: string, m: string)
    ensures Join([n, m]) == n + [Sep] + m
  {
    assert [n, m][..1] == [n];
  }

  lemma ComponentsOfNested(s: Path, n: string, m: string)
    requires IsComponent(n) && IsComponent(m)
    ensures Components(Combine(Combine(s, n), m)) == Components(s) + [n, m]
  {
    ComponentsOfCombine(s, n);
    ComponentsOfCombine(Combine(s, n), m);
  }

  /**
   * The path of a file two levels below a rooted directory, taken relative to that directory,
   * is the two components joined: `GetRelativePath(s, s\n\m) == n\m`.
   */
  lemma RelativePathOfDescendant(cwd: Path, s: Path, n: string, m: string)
    requires IsRooted(s) && IsComponent(n) && IsComponent(m)
    ensures RelativePath(cwd, s, Combine(Combine(s, n), m)) == Combine(n, m)
  {
    CombineRooted(s, n);
    CombineRooted(Combine(s, n), m);
    ComponentsOfNested(s, n, m);
    RelativePathBelow(cwd, s, Combine(Combine(s, n), m), [n, m]);
    JoinTwo(n, m);
    CombineNested(s, n, m);
  }

  lemma UnderTransitive(a: Path, b: Path, c: Path)
    requires Under(a, b) && Under(b, c)
    ensures Under(a, c)
  {
    assert c[..|a|] == c[..|b|][..|a|];
    assert c[|a|] == c[..|b|][|a|];
  }

  /** The parent `GetDirectoryName` gives, unless it is empty, lies above the path. */
  lemma DirectoryNameIsAbove(p: Path)
    requires DirectoryName(p).Some? && DirectoryName(p).value != []
    ensures Under(DirectoryName(p).value, p)
  {
    var n := FileName(p);
    var head := p[..|p| - |n|];
    if head != [Sep] {
      var h := head[..|head| - 1];
      assert h == p[..|h|];
      assert p[|h|] == head[|head| - 1] == Sep;
    }
  }

  /** Every path of the lineage is the path itself or a directory above it. */
  lemma {:induction false} LineageIsAncestry(p: Path)
    ensures forall q :: q in Lineage(p) ==> AtOrUnder(q, p)
    decreases |p|
  {
    var parent := DirectoryName(p);
    if p != [] && parent.Some? && parent.value != [] {
      LineageIsAncestry(parent.value);
      DirectoryNameIsAbove(p);
      forall q | q in Lineage(parent.value) ensures AtOrUnder(q, p) {
        if q != parent.value {
          UnderTransitive(q, parent.value, p);
        }
      }
    }
  }
}
