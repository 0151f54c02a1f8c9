/**
 * The JavaScript string operations the components use: `trim()`, the regular
 * expression class `\s`, `includes`, `replace` with a one-character string
 * pattern (first occurrence only), and `replace` with a global pattern.
 * Strings are sequences of Unicode scalar values.
 */
module JsStrings {

  /**
   * ECMAScript WhiteSpace and LineTerminator code points: the set `trim()`
   * strips and the regular-expression class `\s` matches.
   */
  predicate IsWhitespace(c: char) {
    || c == '\t' || c == '\n' || c == '\U{000B}' || c == '\U{000C}' || c == '\r'
    || c == ' ' || c == '\U{00A0}' || c == '\U{1680}'
    || ('\U{2000}' <= c <= '\U{200A}')
    || c == '\U{2028}' || c == '\U{2029}' || c == '\U{202F}' || c == '\U{205F}'
    || c == '\U{3000}' || c == '\U{FEFF}'
  }

  predicate AllWhitespace(s: string) {
    forall i :: 0 <= i < |s| ==> IsWhitespace(s[i])
  }

  predicate NoWhitespace(s: string) {
    forall i :: 0 <= i < |s| ==> !IsWhitespace(s[i])
  }

  /** `s.trimStart()`: drops the leading whitespace and keeps the rest. */
  function TrimStart(s: string): (r: string)
    ensures |r| <= |s| && r == s[|s| - |r|..]
    ensures AllWhitespace(s[..|s| - |r|])
    ensures r == [] || !IsWhitespace(r[0])
    decreases |s|
  {
    if s != [] && IsWhitespace(s[0]) then
      var r := TrimStart(s[1..]);
      assert s[..|s| - |r|] == [s[0]] + s[1..][..|s| - 1 - |r|];
      r
    else
      s
  }

  /** `s.trimEnd()`: drops the trailing whitespace and keeps the rest. */
  function TrimEnd(s: string): (r: string)
    ensures |r| <= |s| && r == s[..|r|]
    ensures AllWhitespace(s[|r|..])
    ensures r == [] || !IsWhitespace(r[|r| - 1])
    decreases |s|
  {
    if s != [] && IsWhitespace(s[|s| - 1]) then
      var r := TrimEnd(s[..|s| - 1]);
      assert s[|r|..] == s[..|s| - 1][|r|..] + [s[|s| - 1]];
      r
    else
      s
  }

  /**
   * `s.trim()`: the infix of `s` left once the whitespace on both ends is
   * removed. It is empty exactly when `s` is all whitespace.
   */
  function Trim(s: string): (r: string)
    ensures r == [] || (!IsWhitespace(r[0]) && !IsWhitespace(r[|r| - 1]))
    ensures r == [] <==> AllWhitespace(s)
  {
    var t := TrimStart(s);
    var r := TrimEnd(t);
    TrimInfix(s, t, r);
    r
  }

  /** What `trim()` keeps is an infix with nothing but whitespace on either side of it. */
  lemma TrimIsInfix(s: string)
    ensures exists i, j :: 0 <= i <= j <= |s| && Trim(s) == s[i..j] && AllWhitespace(s[..i]) && AllWhitespace(s[j..])
  {
    TrimInfix(s, TrimStart(s), TrimEnd(TrimStart(s)));
  }

  /**
   * Dropping a whitespace prefix and then a whitespace suffix leaves an
   * infix with only whitespace around it.
   */
  lemma TrimInfix(s: string, t: string, r: string)
    requires |t| <= |s| && t == s[|s| - |t|..] && AllWhitespace(s[..|s| - |t|]) && (t == [] || !IsWhitespace(t[0]))
    requires |r| <= |t| && r == t[..|r|] && AllWhitespace(t[|r|..]) && (r == [] || !IsWhitespace(r[|r| - 1]))
    ensures r == [] || (!IsWhitespace(r[0]) && !IsWhitespace(r[|r| - 1]))
    ensures r == [] <==> AllWhitespace(s)
    ensures exists i, j :: 0 <= i <= j <= |s| && r == s[i..j] && AllWhitespace(s[..i]) && AllWhitespace(s[j..])
  {
    var i := |s| - |t|;
    assert r == s[i..i + |r|];
    assert s[i + |r|..] == t[|r|..];
    if r == [] {
      assert t == [];
      assert s[..i] == s;
    } else {
      assert r[0] == t[0];
    }
    assert 0 <= i <= i + |r| <= |s| && r == s[i..i + |r|] && AllWhitespace(s[..i]) && AllWhitespace(s[i + |r|..]);
  }

  /** The condition `!s.trim()` under which the handlers ignore an input. */
  predicate Blank(s: string) {
    Trim(s) == []
  }

  lemma BlankIsAllWhitespace(s: string)
    ensures Blank(s) <==> AllWhitespace(s)
  {
  }

  lemma TrimIdempotent(s: string)
    ensures Trim(Trim(s)) == Trim(s)
  {
    var t := Trim(s);
    TrimFixed(t);
  }

  /** A string with no whitespace at either end is its own trim. */
  lemma TrimFixed(t: string)
    requires t == [] || (!IsWhitespace(t[0]) && !IsWhitespace(t[|t| - 1]))
    ensures Trim(t) == t
  {
    if t != [] {
      var e: string := [];
      assert e + t + e == t;
      TrimAround(e, t, e);
    }
  }

  /** Trailing whitespace after a text that ends with something else is exactly what `trimEnd` drops. */
  lemma {:induction false} TrimEndPast(t: string, after: string)
    requires AllWhitespace(after)
    requires t != [] && !IsWhitespace(t[|t| - 1])
    ensures TrimEnd(t + after) == t
    decreases |after|
  {
    if after == [] {
      assert t + after == t;
    } else {
      var s := t + after;
      assert s[|s| - 1] == after[|after| - 1];
      assert s[..|s| - 1] == t + after[..|after| - 1];
      TrimEndPast(t, after[..|after| - 1]);
    }
  }

  /** Trimming removes exactly the whitespace around a text that starts and ends with something else. */
  lemma TrimAround(before: string, t: string, after: string)
    requires AllWhitespace(before) && AllWhitespace(after)
    requires t != [] && !IsWhitespace(t[0]) && !IsWhitespace(t[|t| - 1])
    ensures Trim(before + t + after) == t
  {
    assert before + t + after == before + (t + after);
    TrimStartAfterRun(before, t + after);
    TrimEndPast(t, after);
  }

  predicate StartsWith(s: string, p: string) {
    |p| <= |s| && s[..|p|] == p
  }

  /** `s.includes(p)`. */
  predicate Includes(s: string, p: string)
    decreases |s|
  {
    StartsWith(s, p) || (s != [] && Includes(s[1..], p))
  }

  /** The pattern occurs in the text starting at position `i`. */
  predicate OccursAt(s: string, p: string, i: nat) {
    i + |p| <= |s| && s[i..i + |p|] == p
  }

  /** `includes` holds exactly when the pattern occurs at some position of the text. */
  lemma {:induction false} IncludesIffOccurs(s: string, p: string)
    ensures Includes(s, p) <==> exists i: nat :: OccursAt(s, p, i)
    decreases |s|
  {
    if s == [] {
      if p == [] {
        assert OccursAt(s, p, 0);
      }
    } else {
      IncludesIffOccurs(s[1..], p);
      if Includes(s, p) {
        if StartsWith(s, p) {
          assert OccursAt(s, p, 0);
        } else {
          var i: nat :| OccursAt(s[1..], p, i);
          assert s[i + 1..i + 1 + |p|] == s[1..][i..i + |p|];
          assert OccursAt(s, p, i + 1);
        }
      }
      if exists i: nat :: OccursAt(s, p, i) {
        var i: nat :| OccursAt(s, p, i);
        if i > 0 {
          assert s[1..][i - 1..i - 1 + |p|] == s[i..i + |p|];
          assert OccursAt(s[1..], p, i - 1);
        }
      }
    }
  }

  /** A non-empty pattern whose first character does not occur in `s` is not included in `s`. */
  lemma {:induction false} NotIncludedWithoutHead(s: string, p: string)
    requires p != [] && p[0] !in s
    ensures !Includes(s, p)
    decreases |s|
  {
    if s != [] {
      assert s[0] in s;
      assert forall c :: c in s[1..] ==> c in s;
      NotIncludedWithoutHead(s[1..], p);
    }
  }

  /** `s.indexOf(a)` for a one-character string: the first position of `a`, or -1. */
  function IndexOf(s: string, a: char): (k: int)
    ensures -1 <= k < |s|
    ensures k == -1 <==> a !in s
    ensures k >= 0 ==> s[k] == a && a !in s[..k]
    decreases |s|
  {
    if s == [] then -1
    else if s[0] == a then 0
    else
      var k := IndexOf(s[1..], a);
      assert s == [s[0]] + s[1..];
      assert k >= 0 ==> s[..k + 1] == [s[0]] + s[1..][..k];
      if k == -1 then -1 else k + 1
  }

  /** An occurrence that cannot start in `a` lies wholly in `b`. */
  lemma {:induction false} IncludedPastPrefix(a: string, b: string, p: string)
    requires p != [] && p[0] !in a
    requires Includes(a + b, p)
    ensures Includes(b, p)
    decreases |a|
  {
    if a == [] {
      assert a + b == b;
    } else {
      assert a[0] in a;
      assert (a + b)[0] == a[0];
      assert !StartsWith(a + b, p);
      assert (a + b)[1..] == a[1..] + b;
      assert forall c :: c in a[1..] ==> c in a;
      IncludedPastPrefix(a[1..], b, p);
    }
  }

  /**
   * `s.replace(a, b)` with one-character strings: the scan stops at the first
   * occurrence of `a`, which becomes `b`.
   */
  function ReplaceFirst(s: string, a: char, b: char): (r: string)
    ensures IndexOf(s, a) == -1 ==> r == s
    ensures IndexOf(s, a) >= 0 ==> r == s[IndexOf(s, a) := b]
    decreases |s|
  {
    if s == [] then []
    else if s[0] == a then [b] + s[1..]
    else
      var rest := ReplaceFirst(s[1..], a, b);
      assert s == [s[0]] + s[1..];
      [s[0]] + rest
  }

  /** The first occurrence is the one after a prefix that does not contain the character. */
  lemma IndexAfter(p: string, a: char, q: string)
    requires a !in p
    ensures IndexOf(p + [a] + q, a) == |p|
  {
    var s := p + [a] + q;
    assert s[|p|] == a;
  }

  /** Only the first occurrence is replaced: what precedes it and what follows it are kept. */
  lemma ReplaceFirstAt(p: string, a: char, q: string, b: char)
    requires a !in p
    ensures ReplaceFirst(p + [a] + q, a, b) == p + [b] + q
  {
    IndexAfter(p, a, q);
    assert (p + [a] + q)[|p| := b] == p + [b] + q;
  }

  /** A string without the character is left as it is. */
  lemma ReplaceFirstAbsent(s: string, a: char, b: char)
    requires a !in s
    ensures ReplaceFirst(s, a, b) == s
  {
  }

  /** The number of occurrences of `c` in `s`. */
  function Count(s: string, c: char): nat {
    if s == [] then 0 else (if s[0] == c then 1 else 0) + Count(s[1..], c)
  }

  /** `s.replace(/c/g, repl)`: every occurrence of the character `c` becomes `repl`. */
  function ReplaceAll(s: string, c: char, repl: string): (r: string)
    ensures c !in repl ==> c !in r
    ensures c !in s ==> r == s
    decreases |s|
  {
    if s == [] then []
    else
      var rest := ReplaceAll(s[1..], c, repl);
      assert s[0] in s;
      (if s[0] == c then repl else [s[0]]) + rest
  }

  /** Each occurrence of `c` adds the length of `repl` less one. */
  lemma {:induction false} ReplaceAllLength(s: string, c: char, repl: string)
    ensures |ReplaceAll(s, c, repl)| == |s| + Count(s, c) * (|repl| - 1)
    decreases |s|
  {
    if s != [] {
      var head := if s[0] == c then repl else [s[0]];
      var rest := ReplaceAll(s[1..], c, repl);
      assert ReplaceAll(s, c, repl) == head + rest;
      ReplaceAllLength(s[1..], c, repl);
      var n, k := Count(s[1..], c), |repl| - 1;
      assert |rest| == |s| - 1 + n * k;
      if s[0] == c {
        assert Count(s, c) == n + 1;
        MulStep(n, k);
      } else {
        assert Count(s, c) == n;
      }
    }
  }

  lemma MulStep(n: int, k: int)
    ensures (n + 1) * k == n * k + k
  {
  }

  /** Replacing characters commutes with concatenation. */
  lemma {:induction false} ReplaceAllAppend(a: string, b: string, c: char, repl: string)
    ensures ReplaceAll(a + b, c, repl) == ReplaceAll(a, c, repl) + ReplaceAll(b, c, repl)
    decreases |a|
  {
    if a == [] {
      assert a + b == b;
    } else {
      var head := if a[0] == c then repl else [a[0]];
      assert (a + b)[0] == a[0];
      assert (a + b)[1..] == a[1..] + b;
      assert ReplaceAll(a + b, c, repl) == head + ReplaceAll(a[1..] + b, c, repl);
      assert ReplaceAll(a, c, repl) == head + ReplaceAll(a[1..], c, repl);
      ReplaceAllAppend(a[1..], b, c, repl);
      ConcatAssoc(head, ReplaceAll(a[1..], c, repl), ReplaceAll(b, c, repl));
    }
  }

  /** `s.replace(/\s+/g, repl)`: every maximal run of whitespace becomes one `repl`. */
  function ReplaceWhitespaceRuns(s: string, repl: string): (r: string)
    ensures NoWhitespace(repl) ==> NoWhitespace(r)
    ensures NoWhitespace(s) ==> r == s
    decreases |s|
  {
    if s == [] then []
    else if IsWhitespace(s[0]) then repl + ReplaceWhitespaceRuns(TrimStart(s[1..]), repl)
    else [s[0]] + ReplaceWhitespaceRuns(s[1..], repl)
  }

  /** Dropping leading whitespace from `w + b` leaves `b` when `w` is all whitespace and `b` does not start with it. */
  lemma {:induction false} TrimStartAfterRun(w: string, b: string)
    requires AllWhitespace(w)
    requires b == [] || !IsWhitespace(b[0])
    ensures TrimStart(w + b) == b
    decreases |w|
  {
    if w == [] {
      assert w + b == b;
    } else {
      assert (w + b)[1..] == w[1..] + b;
      TrimStartAfterRun(w[1..], b);
    }
  }

  /** Leading whitespace that ends inside `a` is dropped before anything of `b` is reached. */
  lemma {:induction false} TrimStartAppend(a: string, b: string)
    requires a != [] && !IsWhitespace(a[|a| - 1])
    ensures TrimStart(a + b) == TrimStart(a) + b
    decreases |a|
  {
    if IsWhitespace(a[0]) {
      assert (a + b)[1..] == a[1..] + b;
      TrimStartAppend(a[1..], b);
    }
  }

  /** A non-empty whitespace run followed by a non-whitespace start is replaced by exactly one `repl`. */
  lemma WhitespaceRunReplaced(w: string, b: string, repl: string)
    requires w != [] && AllWhitespace(w)
    requires b == [] || !IsWhitespace(b[0])
    ensures ReplaceWhitespaceRuns(w + b, repl) == repl + ReplaceWhitespaceRuns(b, repl)
  {
    assert (w + b)[0] == w[0];
    assert (w + b)[1..] == w[1..] + b;
    TrimStartAfterRun(w[1..], b);
  }

  lemma ConcatAssoc(x: string, y: string, z: string)
    ensures x + (y + z) == (x + y) + z
  {
  }

  /** Leading whitespace cannot swallow a non-whitespace last character. */
  lemma {:induction false} TrimStartKeepsLast(s: string)
    requires s != [] && !IsWhitespace(s[|s| - 1])
    ensures TrimStart(s) != [] && TrimStart(s)[|TrimStart(s)| - 1] == s[|s| - 1]
    decreases |s|
  {
    if IsWhitespace(s[0]) {
      assert |s| > 1;
      assert s[1..][|s| - 2] == s[|s| - 1];
      TrimStartKeepsLast(s[1..]);
    }
  }

  /** Splitting after a non-whitespace character splits the replacement. */
  lemma {:induction false} ReplaceWhitespaceRunsAppend(a: string, b: string, repl: string)
    requires a == [] || !IsWhitespace(a[|a| - 1])
    ensures ReplaceWhitespaceRuns(a + b, repl) == ReplaceWhitespaceRuns(a, repl) + ReplaceWhitespaceRuns(b, repl)
    decreases |a|
  {
    if a == [] {
      assert a + b == b;
    } else {
      assert (a + b)[0] == a[0];
      assert (a + b)[1..] == a[1..] + b;
      if IsWhitespace(a[0]) {
        var t := TrimStart(a[1..]);
        TrimStartKeepsLast(a[1..]);
        TrimStartAppend(a[1..], b);
        ReplaceWhitespaceRunsAppend(t, b, repl);
        assert ReplaceWhitespaceRuns(a, repl) == repl + ReplaceWhitespaceRuns(t, repl);
        assert ReplaceWhitespaceRuns(a + b, repl) == repl + ReplaceWhitespaceRuns(t + b, repl);
        ConcatAssoc(repl, ReplaceWhitespaceRuns(t, repl), ReplaceWhitespaceRuns(b, repl));
      } else {
        ReplaceWhitespaceRunsAppend(a[1..], b, repl);
        assert ReplaceWhitespaceRuns(a, repl) == [a[0]] + ReplaceWhitespaceRuns(a[1..], repl);
        assert ReplaceWhitespaceRuns(a + b, repl) == [a[0]] + ReplaceWhitespaceRuns(a[1..] + b, repl);
        ConcatAssoc([a[0]], ReplaceWhitespaceRuns(a[1..], repl), ReplaceWhitespaceRuns(b, repl));
      }
    }
  }
}
