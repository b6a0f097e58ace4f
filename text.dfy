/** String helpers shared by the backend (Python) and the front end
    (TypeScript). The two languages disagree on what counts as whitespace, so
    each helper that depends on it takes the language whose rules apply. */
module Text {

  /** Whose whitespace rules apply. */
  datatype Flavor = Python | JavaScript

  /** Python: the characters `str.isspace()` accepts, which are also what
      `str.strip()` removes and what `\s` matches in a `str` pattern.
      JavaScript: the WhiteSpace and LineTerminator characters, which are what
      `\s` matches and what `String.prototype.trim` removes. */
  predicate IsSpace(f: Flavor, c: char) {
    InRanges(c, SpaceRanges(f))
  }

  /** The whitespace characters, as inclusive ranges. */
  function SpaceRanges(f: Flavor): seq<(char, char)> {
    match f
    case Python =>
      [(' ', ' '), ('\t', '\r'), ('\U{1C}', '\U{1F}'), ('\U{85}', '\U{85}'), ('\U{A0}', '\U{A0}'),
       ('\U{1680}', '\U{1680}'), ('\U{2000}', '\U{200A}'), ('\U{2028}', '\U{2029}'),
       ('\U{202F}', '\U{202F}'), ('\U{205F}', '\U{205F}'), ('\U{3000}', '\U{3000}')]
    case JavaScript =>
      [(' ', ' '), ('\t', '\r'), ('\U{A0}', '\U{A0}'), ('\U{1680}', '\U{1680}'),
       ('\U{2000}', '\U{200A}'), ('\U{2028}', '\U{2029}'), ('\U{202F}', '\U{202F}'),
       ('\U{205F}', '\U{205F}'), ('\U{3000}', '\U{3000}'), ('\U{FEFF}', '\U{FEFF}')]
  }

  /** `c` lies in one of the ranges. */
  predicate InRanges(c: char, ranges: seq<(char, char)>)
    decreases |ranges|
  {
    ranges != [] && ((ranges[0].0 <= c <= ranges[0].1) || InRanges(c, ranges[1..]))
  }

  lemma {:induction false} NotInRanges(c: char, ranges: seq<(char, char)>)
    requires forall k :: 0 <= k < |ranges| ==> !(ranges[k].0 <= c <= ranges[k].1)
    ensures !InRanges(c, ranges)
    decreases |ranges|
  {
    if ranges != [] {
      NotInRanges(c, ranges[1..]);
    }
  }

  /** Printable ASCII, the letters of the Arabic block and the joiners and
      directional marks are not whitespace in either language. */
  lemma NotSpace(f: Flavor, c: char)
    requires ' ' < c < '\U{85}' || '\U{A0}' < c < '\U{1680}' || '\U{200A}' < c < '\U{2028}'
    ensures !IsSpace(f, c)
  {
    NotInRanges(c, SpaceRanges(f));
  }

  /** The characters at which JavaScript's `.` stops and after which `^`
      matches in a multiline pattern. */
  predicate IsLineTerminator(c: char) {
    c == '\n' || c == '\r' || c == '\U{2028}' || c == '\U{2029}'
  }

  /** Lower-casing, restricted to ASCII letters. */
  function LowerChar(c: char): (r: char)
    ensures 'A' <= c <= 'Z' ==> 'a' <= r <= 'z'
    ensures !('A' <= c <= 'Z') ==> r == c
  {
    if 'A' <= c <= 'Z' then (c as int + 32) as char else c
  }

  function Lower(s: string): (r: string)
    ensures |r| == |s|
    ensures forall i :: 0 <= i < |s| ==> r[i] == LowerChar(s[i])
  {
    seq(|s|, i requires 0 <= i < |s| => LowerChar(s[i]))
  }

  /** `s` has no upper-case (ASCII) letter, so lower-casing leaves it alone. */
  predicate NoUpper(s: string) {
    forall i :: 0 <= i < |s| ==> !('A' <= s[i] <= 'Z')
  }

  lemma LowerNoUpper(s: string)
    requires NoUpper(s)
    ensures Lower(s) == s
  {
  }

  lemma LowerAppend(s: string, u: string)
    ensures Lower(s + u) == Lower(s) + Lower(u)
  {
    assert forall i :: 0 <= i < |s + u| ==> Lower(s + u)[i] == (Lower(s) + Lower(u))[i];
  }

  /** Two texts that differ, case aside, at a position both have: neither
      is a prefix of the other once lower-cased. */
  lemma NotPrefixIgnoringCase(p: string, s: string, i: nat)
    requires i < |p| && i < |s| && LowerChar(p[i]) != LowerChar(s[i])
    ensures !(Lower(p) <= Lower(s))
  {
    assert Lower(p)[i] != Lower(s)[i];
  }

  /** `p` occurs in `s` as a contiguous substring (Python `in`, JS `includes`). */
  predicate Contains(s: string, p: string)
    decreases |s|
  {
    p <= s || (s != [] && Contains(s[1..], p))
  }

  /** A substring of `s` stays a substring when text is added on either side. */
  lemma {:induction false} ContainsAppend(s: string, u: string, p: string)
    requires Contains(s, p)
    ensures Contains(s + u, p) && Contains(u + s, p)
    decreases |s| + |u|
  {
    if p <= s {
      assert p <= s + u;
    } else {
      ContainsAppend(s[1..], u, p);
      assert (s + u)[1..] == s[1..] + u;
    }
    if u != [] {
      ContainsAppend(s, u[1..], p);
      assert (u + s)[1..] == u[1..] + s;
    } else {
      assert u + s == s;
    }
  }

  /** The end of the run of whitespace that starts at `k`. */
  function SpaceRunEnd(f: Flavor, s: string, k: nat): (j: nat)
    requires k <= |s|
    ensures k <= j <= |s|
    ensures forall i :: k <= i < j ==> IsSpace(f, s[i])
    ensures j < |s| ==> !IsSpace(f, s[j])
    decreases |s| - k
  {
    if k < |s| && IsSpace(f, s[k]) then SpaceRunEnd(f, s, k + 1) else k
  }

  /** The start of the run of whitespace that ends at `k`. */
  function SpaceRunStart(f: Flavor, s: string, k: nat): (j: nat)
    requires k <= |s|
    ensures j <= k
    ensures forall i :: j <= i < k ==> IsSpace(f, s[i])
    ensures j > 0 ==> !IsSpace(f, s[j - 1])
    decreases k
  {
    if k > 0 && IsSpace(f, s[k - 1]) then SpaceRunStart(f, s, k - 1) else k
  }

  /** Python's `str.lstrip()` / JavaScript's `trimStart()`. */
  function TrimLeft(f: Flavor, s: string): (r: string)
    ensures |r| <= |s| && r == s[|s| - |r|..]
    ensures forall i :: 0 <= i < |s| - |r| ==> IsSpace(f, s[i])
    ensures r != [] ==> !IsSpace(f, r[0])
  {
    s[SpaceRunEnd(f, s, 0)..]
  }

  /** Python's `str.rstrip()` / JavaScript's `trimEnd()`. */
  function TrimRight(f: Flavor, s: string): (r: string)
    ensures |r| <= |s| && r == s[..|r|]
    ensures forall i :: |r| <= i < |s| ==> IsSpace(f, s[i])
    ensures r != [] ==> !IsSpace(f, r[|r| - 1])
  {
    s[..SpaceRunStart(f, s, |s|)]
  }

  /** Text that starts (ends) with a non-space is left alone at that end. */
  lemma TrimLeftKeeps(f: Flavor, s: string)
    requires s != [] && !IsSpace(f, s[0])
    ensures TrimLeft(f, s) == s
  {
  }

  lemma TrimRightKeeps(f: Flavor, s: string)
    requires s != [] && !IsSpace(f, s[|s| - 1])
    ensures TrimRight(f, s) == s
  {
  }

  /** A text with no whitespace at its ends, followed by one whitespace
      character, trims back to itself. */
  lemma TrimDropsTrailingSpace(f: Flavor, t: string, c: char)
    requires t != [] && !IsSpace(f, t[0]) && !IsSpace(f, t[|t| - 1])
    requires IsSpace(f, c)
    ensures Trim(f, t + [c]) == t
  {
    var u := t + [c];
    assert u[0] == t[0] && u[|t|] == c && u[|t| - 1] == t[|t| - 1];
    assert SpaceRunEnd(f, u, 0) == 0;
    assert TrimLeft(f, u) == u;
    assert SpaceRunStart(f, u, |t|) == |t|;
    assert SpaceRunStart(f, u, |u|) == |t|;
    assert u[..|t|] == t;
  }

  /** Both ends: what is left neither starts nor ends with whitespace. */
  function Trim(f: Flavor, s: string): (r: string)
    ensures r != [] ==> !IsSpace(f, r[0]) && !IsSpace(f, r[|r| - 1])
    ensures |r| <= |s|
  {
    var l := TrimLeft(f, s);
    assert l != [] ==> TrimRight(f, l) != [] && TrimRight(f, l)[0] == l[0];
    TrimRight(f, l)
  }

  /** `Trim` keeps a contiguous run of `s`: it removes whitespace only, and
      exactly the leading and trailing whitespace. */
  lemma TrimFacts(f: Flavor, s: string)
    ensures forall c :: c in Trim(f, s) ==> c in s
    ensures (s == [] || (!IsSpace(f, s[0]) && !IsSpace(f, s[|s| - 1]))) ==> Trim(f, s) == s
    ensures (forall c :: c in s ==> IsSpace(f, c)) <==> Trim(f, s) == []
  {
    var l := TrimLeft(f, s);
    var r := TrimRight(f, l);
    assert forall c :: c in r ==> c in l;
    if r == [] {
      forall c | c in s ensures IsSpace(f, c) {
        var i :| 0 <= i < |s| && s[i] == c;
      }
    }
    if s != [] && !IsSpace(f, s[0]) && !IsSpace(f, s[|s| - 1]) {
      TrimLeftKeeps(f, s);
      TrimRightKeeps(f, s);
    }
  }

  /** No two adjacent characters of `s` are both whitespace. */
  predicate NoDoubleSpace(f: Flavor, s: string) {
    forall i :: 0 <= i < |s| - 1 ==> !(IsSpace(f, s[i]) && IsSpace(f, s[i + 1]))
  }

  /** Trimming keeps a string free of adjacent whitespace, since it keeps a
      contiguous run of it. */
  lemma TrimKeepsNoDoubleSpace(f: Flavor, s: string)
    requires NoDoubleSpace(f, s)
    ensures NoDoubleSpace(f, Trim(f, s))
  {
    var l := TrimLeft(f, s);
    var k := |s| - |l|;
    var r := TrimRight(f, l);
    assert forall i :: 0 <= i < |r| ==> r[i] == s[k + i];
  }

  /** `f` applied to each element (JavaScript `map`, a Python loop over a list). */
  function Map<A, B>(f: A -> B, s: seq<A>): (r: seq<B>)
    ensures |r| == |s|
    decreases |s|
  {
    if s == [] then [] else Map(f, s[..|s| - 1]) + [f(s[|s| - 1])]
  }

  lemma {:induction false} MapAt<A, B>(f: A -> B, s: seq<A>, j: nat)
    requires j < |s|
    ensures Map(f, s)[j] == f(s[j])
    decreases |s|
  {
    var n := |s| - 1;
    if j < n {
      MapAt(f, s[..n], j);
    }
  }

  lemma MapEach<A, B>(f: A -> B, s: seq<A>)
    ensures |Map(f, s)| == |s| && forall j :: 0 <= j < |s| ==> Map(f, s)[j] == f(s[j])
  {
    forall j | 0 <= j < |s| ensures Map(f, s)[j] == f(s[j]) {
      MapAt(f, s, j);
    }
  }

  /** A sequence is what comes before position `k`, the element there, and
      what comes after. */
  lemma Around<T>(s: seq<T>, k: nat)
    requires k < |s|
    ensures s == s[..k] + [s[k]] + s[k + 1..]
  {
  }

  /** The first `i + 1` elements are the first `i` and then the next one. */
  lemma TakeSnoc<T>(s: seq<T>, i: nat)
    requires i < |s|
    ensures s[..i + 1] == s[..i] + [s[i]]
  {
  }

  /** The four parts of `a + b + c + d`, by position. */
  lemma Slices4<T>(a: seq<T>, b: seq<T>, c: seq<T>, d: seq<T>)
    ensures var s := a + b + c + d;
      |s| == |a| + |b| + |c| + |d|
      && s[..|a|] == a && s[|a|..|a| + |b|] == b
      && s[|a| + |b|..|a| + |b| + |c|] == c && s[|a| + |b| + |c|..] == d
  {
  }

  lemma AppendEmpty<T>(s: seq<T>)
    ensures [] + s == s && s + [] == s
  {
  }

  lemma MapSnoc<A, B>(f: A -> B, s: seq<A>, x: A)
    ensures Map(f, s + [x]) == Map(f, s) + [f(x)]
  {
    assert (s + [x])[..|s|] == s;
  }

  lemma {:induction false} MapAppend<A, B>(f: A -> B, a: seq<A>, b: seq<A>)
    ensures Map(f, a + b) == Map(f, a) + Map(f, b)
    decreases |b|
  {
    if b == [] {
      assert a + b == a;
    } else {
      var n := |b| - 1;
      assert a + b == (a + b[..n]) + [b[n]];
      MapAppend(f, a, b[..n]);
      MapSnoc(f, a + b[..n], b[n]);
      MapSnoc(f, b[..n], b[n]);
      assert b[..n] + [b[n]] == b;
    }
  }

  /** Index of the first `c` in `s`. */
  function IndexOf(s: string, c: char): (k: nat)
    requires c in s
    ensures k < |s| && s[k] == c && c !in s[..k]
  {
    if s[0] == c then 0 else 1 + IndexOf(s[1..], c)
  }

  /** Python's `s.split(sep)` for a one-character separator: the pieces
      between separators, one more than there are separators. */
  function Split(s: string, sep: char): (r: seq<string>)
    ensures |r| >= 1
    ensures forall i :: 0 <= i < |r| ==> sep !in r[i]
    decreases |s|
  {
    if sep !in s then [s]
    else
      var k := IndexOf(s, sep);
      [s[..k]] + Split(s[k + 1..], sep)
  }

  /** `sep.join(parts)`, the inverse of `Split`. */
  function Join(parts: seq<string>, sep: string): string
    decreases |parts|
  {
    if parts == [] then ""
    else if |parts| == 1 then parts[0]
    else parts[0] + sep + Join(parts[1..], sep)
  }

  /** Splitting and joining back with the same separator gives the text back:
      no character of the input is lost or invented by the line split. */
  lemma {:induction false} SplitJoin(s: string, sep: char)
    ensures Join(Split(s, sep), [sep]) == s
    decreases |s|
  {
    if sep in s {
      var k := IndexOf(s, sep);
      SplitJoin(s[k + 1..], sep);
      var rest := Split(s[k + 1..], sep);
      assert Split(s, sep) == [s[..k]] + rest;
      Around(s, k);
    }
  }

  /** The first `c` of `a + [c] + b`, when `a` has none, is the one after `a`. */
  lemma {:induction false} IndexOfAfter(a: string, c: char, b: string)
    requires c !in a
    ensures c in a + [c] + b && IndexOf(a + [c] + b, c) == |a|
    decreases |a|
  {
    var s := a + [c] + b;
    assert s[|a|] == c;
    if a != [] {
      assert s[1..] == a[1..] + [c] + b;
      IndexOfAfter(a[1..], c, b);
    }
  }

  /** Splitting at a separator preceded by a separator-free piece yields
      that piece first. */
  lemma SplitAfter(a: string, sep: char, b: string)
    requires sep !in a
    ensures Split(a + [sep] + b, sep) == [a] + Split(b, sep)
  {
    var s := a + [sep] + b;
    IndexOfAfter(a, sep, b);
    assert s[..|a|] == a;
    assert s[|a| + 1..] == b;
  }

  /** Joining pieces that contain no separator and splitting the result
      gives the pieces back: the line split is the inverse of the join. */
  lemma {:induction false} JoinSplit(parts: seq<string>, sep: char)
    requires parts != []
    requires forall i :: 0 <= i < |parts| ==> sep !in parts[i]
    ensures Split(Join(parts, [sep]), sep) == parts
    decreases |parts|
  {
    if |parts| > 1 {
      var rest := Join(parts[1..], [sep]);
      assert Join(parts, [sep]) == parts[0] + [sep] + rest;
      SplitAfter(parts[0], sep, rest);
      JoinSplit(parts[1..], sep);
      assert parts == [parts[0]] + parts[1..];
    }
  }

  /** The last piece of a split is the text after the last separator. */
  lemma {:induction false} SplitLast(a: string, sep: char, b: string)
    requires sep !in b
    ensures var r := Split(a + [sep] + b, sep); r[|r| - 1] == b
    decreases |a|
  {
    if sep !in a {
      SplitAfter(a, sep, b);
      assert Split(b, sep) == [b];
    } else {
      var k := IndexOf(a, sep);
      var rest := [sep] + b;
      assert a + [sep] + b == a + rest;
      SplitInPrefix(a, sep, rest);
      assert a[k + 1..] + rest == a[k + 1..] + [sep] + b;
      SplitLast(a[k + 1..], sep, b);
    }
  }

  /** Splitting `a + rest` where `a` holds a separator: the first piece comes
      from `a` and the rest is the split of what follows it. */
  lemma SplitInPrefix(a: string, sep: char, rest: string)
    requires sep in a
    ensures Split(a + rest, sep)
      == [a[..IndexOf(a, sep)]] + Split(a[IndexOf(a, sep) + 1..] + rest, sep)
  {
    var k := IndexOf(a, sep);
    var s := a + rest;
    IndexOfPrefix(a, sep, rest);
    assert s[..k] == a[..k];
    assert s[k + 1..] == a[k + 1..] + rest;
  }

  /** The first separator of `a + b` is in `a` when `a` has one. */
  lemma {:induction false} IndexOfPrefix(a: string, c: char, b: string)
    requires c in a
    ensures IndexOf(a + b, c) == IndexOf(a, c)
    decreases |a|
  {
    if a[0] != c {
      assert (a + b)[1..] == a[1..] + b;
      IndexOfPrefix(a[1..], c, b);
    }
  }
}
