/**
 * The handful of Python `str` operations the backend relies on, over `seq<char>`.
 * Case mapping and whitespace are the ASCII parts of Python's Unicode rules.
 */
module Strings {

  /** Python's `str.isspace()` (and the regex class `\s`), on the ASCII range. */
  predicate IsSpace(c: char)
  {
    c == ' ' || c == '\t' || c == '\n' || c == '\r' || c == '\U{B}' || c == '\U{C}' ||
    c == '\U{1C}' || c == '\U{1D}' || c == '\U{1E}' || c == '\U{1F}'
  }

  predicate IsUpper(c: char)
  {
    'A' <= c <= 'Z'
  }

  function LowerChar(c: char): char
  {
    if IsUpper(c) then (c as int + 32) as char else c
  }

  /** Python's `str.lower()` on ASCII letters. */
  function Lower(s: string): string
  {
    seq(|s|, i requires 0 <= i < |s| => LowerChar(s[i]))
  }

  /** No ASCII upper-case letter occurs in `s`. */
  predicate IsLowercase(s: string)
  {
    forall j :: 0 <= j < |s| ==> !IsUpper(s[j])
  }

  lemma LowerIsLowercase(s: string)
    ensures |Lower(s)| == |s| && IsLowercase(Lower(s))
  {
  }

  lemma LowercaseFixed(s: string)
    requires IsLowercase(s)
    ensures Lower(s) == s
  {
  }

  lemma LowerIdempotent(s: string)
    ensures Lower(Lower(s)) == Lower(s)
  {
    LowerIsLowercase(s);
    LowercaseFixed(Lower(s));
  }

  lemma LowerConcat(a: string, b: string)
    ensures Lower(a + b) == Lower(a) + Lower(b)
  {
  }

  /** `n` occurs in `h` starting at index `i`. */
  predicate OccursAt(n: string, h: string, i: int)
  {
    0 <= i && i + |n| <= |h| && h[i..i + |n|] == n
  }

  /** Python's `n in h` for strings. */
  predicate Contains(n: string, h: string)
  {
    exists i | 0 <= i <= |h| - |n| :: OccursAt(n, h, i)
  }

  /** A string that contains `n` contains every piece of `n`. */
  lemma ContainsPiece(n: string, h: string, a: nat, b: nat)
    requires a <= b <= |n| && Contains(n, h)
    ensures Contains(n[a..b], h)
  {
    var i :| 0 <= i <= |h| - |n| && OccursAt(n, h, i);
    forall k | 0 <= k < b - a
      ensures h[i + a..i + b][k] == n[a..b][k]
    {
      assert h[i..i + |n|][a + k] == n[a + k];
    }
    assert OccursAt(n[a..b], h, i + a);
  }

  /** The empty string occurs in every string. */
  lemma ContainsEmpty(h: string)
    ensures Contains("", h)
  {
    assert OccursAt("", h, 0);
  }

  /** The character `c` does not occur in `s`. */
  predicate Lacks(s: string, c: char)
  {
    forall j :: 0 <= j < |s| ==> s[j] != c
  }

  lemma LacksConcat(a: string, b: string, c: char)
    requires Lacks(a, c) && Lacks(b, c)
    ensures Lacks(a + b, c)
  {
  }

  /** Lower-casing cannot produce a character whose upper- and lower-case forms are both absent. */
  lemma LowerLacks(s: string, c: char)
    requires !IsUpper(c) && Lacks(s, c)
    requires 'a' <= c <= 'z' ==> Lacks(s, (c as int - 32) as char)
    ensures Lacks(Lower(s), c)
  {
    forall j | 0 <= j < |s| ensures Lower(s)[j] != c {
      if IsUpper(s[j]) {
        assert Lower(s)[j] == (s[j] as int + 32) as char;
      }
    }
  }

  /** A text that lacks one of the characters of `n` does not contain `n`. */
  lemma NotContainsLacking(n: string, h: string, k: nat)
    requires k < |n| && Lacks(h, n[k])
    ensures !Contains(n, h)
  {
    forall i | 0 <= i <= |h| - |n| ensures !OccursAt(n, h, i) {
      assert h[i..i + |n|][k] == h[i + k];
    }
  }

  /** Every character of `s` is one of `alphabet`. */
  predicate Within(s: string, alphabet: set<char>)
  {
    forall j :: 0 <= j < |s| ==> s[j] in alphabet
  }

  lemma WithinConcat(a: string, b: string, alphabet: set<char>)
    requires Within(a, alphabet) && Within(b, alphabet)
    ensures Within(a + b, alphabet)
  {
  }

  /** A text written in `alphabet` does not contain a string with a character outside it. */
  lemma NotContainsOutside(n: string, h: string, alphabet: set<char>, k: nat)
    requires k < |n| && n[k] !in alphabet && Within(h, alphabet)
    ensures !Contains(n, h)
  {
    forall i | 0 <= i <= |h| - |n| ensures !OccursAt(n, h, i) {
      assert h[i..i + |n|][k] == h[i + k];
    }
  }

  /** The three characters `x`, `y`, `z` never occur in a row in `s`. */
  predicate LacksGram(s: string, x: char, y: char, z: char)
  {
    forall j :: 0 <= j < |s| - 2 ==> !(s[j] == x && s[j + 1] == y && s[j + 2] == z)
  }

  /** A gram missing from both parts and from the four characters around the seam is missing from the whole. */
  lemma LacksGramConcat(a: string, b: string, x: char, y: char, z: char)
    requires |a| >= 2 && LacksGram(a, x, y, z) && LacksGram(b, x, y, z)
    requires LacksGram(a[|a| - 2..] + (if |b| < 2 then b else b[..2]), x, y, z)
    ensures LacksGram(a + b, x, y, z)
  {
    var w := a[|a| - 2..] + (if |b| < 2 then b else b[..2]);
    forall j | 0 <= j < |a + b| - 2 ensures !((a + b)[j] == x && (a + b)[j + 1] == y && (a + b)[j + 2] == z) {
      if j + 2 < |a| {
        assert (a + b)[j] == a[j] && (a + b)[j + 1] == a[j + 1] && (a + b)[j + 2] == a[j + 2];
      } else if j >= |a| {
        assert (a + b)[j] == b[j - |a|] && (a + b)[j + 1] == b[j - |a| + 1] && (a + b)[j + 2] == b[j - |a| + 2];
      } else {
        var k := j - (|a| - 2);
        assert w[k] == (a + b)[j] && w[k + 1] == (a + b)[j + 1] && w[k + 2] == (a + b)[j + 2];
      }
    }
  }

  /** A text that lacks three consecutive characters of `n` does not contain `n`. */
  lemma NotContainsGram(n: string, h: string, k: nat)
    requires k + 3 <= |n| && LacksGram(h, n[k], n[k + 1], n[k + 2])
    ensures !Contains(n, h)
  {
    forall i | 0 <= i <= |h| - |n| ensures !OccursAt(n, h, i) {
      assert h[i..i + |n|][k] == h[i + k];
      assert h[i..i + |n|][k + 1] == h[i + k + 1];
      assert h[i..i + |n|][k + 2] == h[i + k + 2];
    }
  }

  /** A text containing `n` still contains it with more text on either side. */
  lemma ContainsConcat(n: string, a: string, b: string)
    requires Contains(n, a) || Contains(n, b)
    ensures Contains(n, a + b)
  {
    if Contains(n, a) {
      var i :| 0 <= i <= |a| - |n| && OccursAt(n, a, i);
      assert (a + b)[i..i + |n|] == a[i..i + |n|];
      assert OccursAt(n, a + b, i);
    } else {
      var i :| 0 <= i <= |b| - |n| && OccursAt(n, b, i);
      assert (a + b)[|a| + i..|a| + i + |n|] == b[i..i + |n|];
      assert OccursAt(n, a + b, |a| + i);
    }
  }

  /** `Lower(s)` is `t` when it is so character by character. */
  lemma LowerIs(s: string, t: string)
    requires |s| == |t| && forall i :: 0 <= i < |s| ==> LowerChar(s[i]) == t[i]
    ensures Lower(s) == t
  {
  }

  /** Python's `s.startswith(p)`. */
  predicate StartsWith(s: string, p: string)
  {
    |p| <= |s| && s[..|p|] == p
  }

  /** A prefix stays a prefix when text is appended, or when the same text is put in front of both. */
  lemma StartsWithExtend(s: string, p: string, t: string, h: string)
    requires StartsWith(s, p)
    ensures StartsWith(s + t, p)
    ensures StartsWith(h + s, h + p)
  {
    assert (s + t)[..|p|] == s[..|p|];
    assert (h + s)[..|h + p|] == h + s[..|p|];
  }

  lemma AppendAssoc(a: string, b: string, c: string)
    ensures (a + b) + c == a + (b + c)
  {
  }

  /** Python's `s.endswith(p)`. */
  predicate EndsWith(s: string, p: string)
  {
    |p| <= |s| && s[|s| - |p|..] == p
  }

  /** Python's `s.lstrip()`. */
  function LStrip(s: string): string
  {
    if |s| > 0 && IsSpace(s[0]) then LStrip(s[1..]) else s
  }

  /** Python's `s.rstrip()`. */
  function RStrip(s: string): string
  {
    if |s| > 0 && IsSpace(s[|s| - 1]) then RStrip(s[..|s| - 1]) else s
  }

  /** Python's `s.strip()`. */
  function Strip(s: string): string
  {
    RStrip(LStrip(s))
  }

  /** A stripped string neither starts nor ends with whitespace. */
  predicate IsStripped(s: string)
  {
    |s| == 0 || (!IsSpace(s[0]) && !IsSpace(s[|s| - 1]))
  }

  lemma {:induction false} LStripFacts(s: string)
    ensures |LStrip(s)| <= |s|
    ensures LStrip(s) == s[|s| - |LStrip(s)|..]
    ensures |LStrip(s)| > 0 ==> !IsSpace(LStrip(s)[0])
    ensures forall j :: 0 <= j < |s| - |LStrip(s)| ==> IsSpace(s[j])
  {
    if |s| > 0 && IsSpace(s[0]) {
      LStripFacts(s[1..]);
    }
  }

  lemma {:induction false} RStripFacts(s: string)
    ensures |RStrip(s)| <= |s|
    ensures RStrip(s) == s[..|RStrip(s)|]
    ensures |RStrip(s)| > 0 ==> !IsSpace(RStrip(s)[|RStrip(s)| - 1])
    ensures forall j :: |RStrip(s)| <= j < |s| ==> IsSpace(s[j])
  {
    if |s| > 0 && IsSpace(s[|s| - 1]) {
      RStripFacts(s[..|s| - 1]);
    }
  }

  /** A string that does not start with whitespace is its own `lstrip()`. */
  lemma LStripNoOp(s: string)
    requires |s| == 0 || !IsSpace(s[0])
    ensures LStrip(s) == s
  {
  }

  /** A string that does not end with whitespace is its own `rstrip()`. */
  lemma RStripNoOp(s: string)
    requires |s| == 0 || !IsSpace(s[|s| - 1])
    ensures RStrip(s) == s
  {
  }

  /**
   * `strip()` removes a whitespace prefix and a whitespace suffix and nothing
   * else: the result is a slice of the input, no longer than it, and stripped.
   */
  lemma StripFacts(s: string)
    ensures |Strip(s)| <= |s|
    ensures exists i :: OccursAt(Strip(s), s, i)
    ensures IsStripped(Strip(s))
  {
    LStripFacts(s);
    var l := LStrip(s);
    RStripFacts(l);
    var r := RStrip(l);
    var i := |s| - |l|;
    assert r == l[..|r|];
    assert l == s[i..];
    assert r == s[i..i + |r|];
    if |r| > 0 {
      assert r[0] == l[0];
    }
    assert OccursAt(r, s, i);
  }

  /** `strip()` leaves a stripped string alone, so it is idempotent. */
  lemma StripStripped(s: string)
    requires IsStripped(s)
    ensures Strip(s) == s
  {
    LStripNoOp(s);
    RStripNoOp(s);
  }

  lemma StripIdempotent(s: string)
    ensures Strip(Strip(s)) == Strip(s)
  {
    StripFacts(s);
    StripStripped(Strip(s));
  }

  /** Python's `s.replace(a, b)` for one-character `a` and `b`. */
  function ReplaceChar(s: string, a: char, b: char): string
  {
    seq(|s|, i requires 0 <= i < |s| => if s[i] == a then b else s[i])
  }

  /** Python's `s.replace(c, "")` for a one-character `c`. */
  function RemoveChar(s: string, c: char): string
  {
    if s == [] then [] else (if s[0] == c then [] else [s[0]]) + RemoveChar(s[1..], c)
  }

  lemma {:induction false} RemoveCharFacts(s: string, c: char)
    ensures |RemoveChar(s, c)| <= |s|
    ensures forall j :: 0 <= j < |RemoveChar(s, c)| ==> RemoveChar(s, c)[j] != c
    ensures forall x :: x in RemoveChar(s, c) ==> x in s
  {
    if s != [] {
      RemoveCharFacts(s[1..], c);
    }
  }

  /** Python's `s.replace("\r\n", "\n")`: left to right, without overlaps. */
  function ReplaceCrlf(s: string): string
  {
    if |s| >= 2 && s[0] == '\r' && s[1] == '\n' then "\n" + ReplaceCrlf(s[2..])
    else if s == [] then []
    else [s[0]] + ReplaceCrlf(s[1..])
  }

  lemma {:induction false} ReplaceCrlfNotLonger(s: string)
    ensures |ReplaceCrlf(s)| <= |s|
  {
    if |s| >= 2 && s[0] == '\r' && s[1] == '\n' {
      ReplaceCrlfNotLonger(s[2..]);
    } else if s != [] {
      ReplaceCrlfNotLonger(s[1..]);
    }
  }

  /** Python's slice `s[:n]`, including a negative `n` counted from the end. */
  function Take<T>(s: seq<T>, n: int): (r: seq<T>)
  {
    if n >= 0 then s[..if n <= |s| then n else |s|]
    else s[..if |s| + n >= 0 then |s| + n else 0]
  }

  /** The decimal digits of `n`, as Python's `str(n)` writes them. */
  function NatToString(n: nat): string
    decreases n
  {
    if n < 10 then [Digit(n)] else NatToString(n / 10) + [Digit(n % 10)]
  }

  function Digit(d: nat): char
    requires d < 10
  {
    ('0' as int + d) as char
  }

  /** Python's `str(n)` for any integer: a minus sign, then the digits. */
  function IntToString(n: int): string
  {
    if n < 0 then "-" + NatToString(-n) else NatToString(n)
  }

  /** Python's `a < b` on strings: code point by code point, a proper prefix first. */
  predicate StrLess(a: string, b: string)
  {
    if a == [] then b != []
    else if b == [] then false
    else if a[0] != b[0] then a[0] < b[0]
    else StrLess(a[1..], b[1..])
  }

  lemma {:induction false} StrLessIrreflexive(a: string)
    ensures !StrLess(a, a)
  {
    if a != [] {
      StrLessIrreflexive(a[1..]);
    }
  }

  lemma {:induction false} StrLessTransitive(a: string, b: string, c: string)
    requires StrLess(a, b) && StrLess(b, c)
    ensures StrLess(a, c)
  {
    if a != [] && b != [] && c != [] && a[0] == b[0] && b[0] == c[0] {
      StrLessTransitive(a[1..], b[1..], c[1..]);
    }
  }

  lemma {:induction false} StrLessTotal(a: string, b: string)
    ensures a == b || StrLess(a, b) || StrLess(b, a)
  {
    if a != [] && b != [] && a[0] == b[0] {
      StrLessTotal(a[1..], b[1..]);
      if a[1..] == b[1..] {
        assert a == [a[0]] + a[1..] && b == [b[0]] + b[1..];
      }
    }
  }

  lemma StrLessAsymmetric(a: string, b: string)
    requires StrLess(a, b)
    ensures !StrLess(b, a)
  {
    if StrLess(b, a) {
      StrLessTransitive(a, b, a);
      StrLessIrreflexive(a);
    }
  }

  /** Each element is less than the next, so the list is sorted and has no duplicates. */
  predicate StrictlySorted(s: seq<string>)
  {
    forall i, j :: 0 <= i < j < |s| ==> StrLess(s[i], s[j])
  }

  /** `m` is the least element of `s`. */
  predicate IsLeast(m: string, s: set<string>)
  {
    m in s && forall x :: x in s && x != m ==> StrLess(m, x)
  }

  /** A finite set of strings has a least element. */
  lemma {:induction false} LeastExists(s: set<string>) returns (m: string)
    requires s != {}
    ensures IsLeast(m, s)
  {
    var y :| y in s;
    var rest := s - {y};
    if rest == {} {
      forall x | x in s ensures x == y {
        assert x in rest || x == y;
      }
      m := y;
    } else {
      var least := LeastExists(rest);
      StrLessTotal(least, y);
      if StrLess(least, y) {
        m := least;
      } else {
        forall x | x in s && x != y ensures StrLess(y, x) {
          if x != least {
            assert x in rest;
            StrLessTransitive(y, least, x);
          }
        }
        m := y;
      }
    }
  }

  /** A strictly sorted list starts with its least element. */
  lemma HeadIsLeast(a: seq<string>, x: string)
    requires StrictlySorted(a) && a != [] && x in a && x != a[0]
    ensures StrLess(a[0], x) && x in a[1..]
  {
    var k :| 0 <= k < |a| && a[k] == x;
    assert a[1..][k - 1] == x;
  }

  /** Two strictly sorted lists with the same elements are the same list. */
  lemma {:induction false} StrictlySortedUnique(a: seq<string>, b: seq<string>)
    requires StrictlySorted(a) && StrictlySorted(b)
    requires forall x :: x in a <==> x in b
    ensures a == b
  {
    if a != [] {
      assert a[0] in a;
    }
    if b != [] {
      assert b[0] in b;
    }
    if a != [] && b != [] {
      if a[0] != b[0] {
        HeadIsLeast(a, b[0]);
        HeadIsLeast(b, a[0]);
        StrLessAsymmetric(a[0], b[0]);
      }
      forall x ensures x in a[1..] <==> x in b[1..] {
        if x in a[1..] {
          assert x in a;
          var k :| 0 <= k < |a[1..]| && a[1..][k] == x;
          assert a[k + 1] == x;
          assert StrLess(a[0], x);
          StrLessIrreflexive(x);
          HeadIsLeast(b, x);
        }
        if x in b[1..] {
          assert x in b;
          var k :| 0 <= k < |b[1..]| && b[1..][k] == x;
          assert b[k + 1] == x;
          assert StrLess(b[0], x);
          StrLessIrreflexive(x);
          HeadIsLeast(a, x);
        }
      }
      StrictlySortedUnique(a[1..], b[1..]);
      assert a == [a[0]] + a[1..] && b == [b[0]] + b[1..];
    }
  }

  /** `sorted(list(s))` for a set of strings. */
  method SortStrings(s: set<string>) returns (r: seq<string>)
    ensures StrictlySorted(r)
    ensures forall x :: x in r <==> x in s
  {
    r := [];
    var rest := s;
    while rest != {}
      invariant rest <= s
      invariant StrictlySorted(r)
      invariant forall x :: x in s <==> x in r || x in rest
      invariant forall i, x :: 0 <= i < |r| && x in rest ==> StrLess(r[i], x)
      decreases rest
    {
      var least := LeastExists(rest);
      var m :| IsLeast(m, rest);
      assert IsLeast(m, rest);
      assert m in rest;
      r := r + [m];
      rest := rest - {m};
    }
  }

  /** A list whose neighbours are in order is strictly sorted. */
  lemma {:induction false} ChainSorted(s: seq<string>)
    requires forall i :: 0 <= i < |s| - 1 ==> StrLess(s[i], s[i + 1])
    ensures StrictlySorted(s)
  {
    if |s| > 1 {
      ChainSorted(s[1..]);
      forall j | 0 < j < |s| ensures StrLess(s[0], s[j]) {
        if j > 1 {
          assert s[1..][0] == s[1] && s[1..][j - 1] == s[j];
          StrLessTransitive(s[0], s[1], s[j]);
        }
      }
      forall i, j | 0 <= i < j < |s| ensures StrLess(s[i], s[j]) {
        if i > 0 {
          assert s[1..][i - 1] == s[i] && s[1..][j - 1] == s[j];
        }
      }
    }
  }
}
