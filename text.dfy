/**
 * The JavaScript string operations the publish workflow relies on:
 * `toLowerCase`, `includes` and `trim`.
 */
module Text {

  /** Lower-casing of one character, on the ASCII letters A-Z. */
  function LowerChar(c: char): (d: char)
    ensures 'A' <= c <= 'Z' ==> d as int == c as int + 32
    ensures !('A' <= c <= 'Z') ==> d == c
  {
    if 'A' <= c <= 'Z' then (c as int + 32) as char else c
  }

  /** `s.toLowerCase()`, character by character. */
  function Lower(s: string): (r: string)
    ensures |r| == |s|
    ensures forall i {:trigger r[i]} :: 0 <= i < |s| ==> r[i] == LowerChar(s[i])
  {
    if s == [] then [] else [LowerChar(s[0])] + Lower(s[1..])
  }

  lemma {:induction false} LowerConcat(a: string, b: string)
    ensures Lower(a + b) == Lower(a) + Lower(b)
  {
    var l, r := Lower(a + b), Lower(a) + Lower(b);
    assert |l| == |r|;
    forall i | 0 <= i < |l| ensures l[i] == r[i] {
      if i < |a| {
        assert (a + b)[i] == a[i];
      } else {
        assert (a + b)[i] == b[i - |a|];
      }
    }
  }

  /** Lower-casing leaves a string without upper-case ASCII letters unchanged. */
  lemma LowerOfLowerText(s: string)
    requires forall i :: 0 <= i < |s| ==> !('A' <= s[i] <= 'Z')
    ensures Lower(s) == s
  {
  }

  /** `sub` occurs in `s` starting at position `k`. */
  predicate OccursAt(s: string, sub: string, k: int)
  {
    0 <= k && k + |sub| <= |s| && s[k..k + |sub|] == sub
  }

  /** `s.includes(sub)`: some position of `s` starts a copy of `sub`. */
  predicate Contains(s: string, sub: string)
  {
    exists k :: 0 <= k <= |s| - |sub| && OccursAt(s, sub, k)
  }

  /**
   * The search `includes` performs (ECMAScript StringIndexOf from position 0):
   * the first position where `sub` occurs, or -1.
   */
  function IndexOf(s: string, sub: string): int
    decreases |s|
  {
    if |sub| > |s| then -1
    else if s[..|sub|] == sub then 0
    else
      var j := IndexOf(s[1..], sub);
      if j < 0 then -1 else j + 1
  }

  /** An occurrence in the tail is an occurrence one position further in the whole. */
  lemma OccursInTail(s: string, sub: string, j: int)
    requires s != [] && 0 <= j
    ensures OccursAt(s[1..], sub, j) <==> OccursAt(s, sub, j + 1)
  {
    if 0 <= j && j + |sub| <= |s| - 1 {
      assert s[1..][j..j + |sub|] == s[j + 1..j + 1 + |sub|];
    }
  }

  /**
   * The search finds the first occurrence: a non-negative result is a position
   * where `sub` occurs and no earlier position has one; -1 means `sub` occurs nowhere.
   */
  lemma {:induction false} IndexOfFirst(s: string, sub: string)
    ensures var i := IndexOf(s, sub);
      && (i == -1 || 0 <= i <= |s| - |sub|)
      && (i >= 0 ==> OccursAt(s, sub, i) && forall j :: 0 <= j < i ==> !OccursAt(s, sub, j))
      && (i < 0 ==> forall j :: !OccursAt(s, sub, j))
    decreases |s|
  {
    if |sub| > |s| {
    } else if s[..|sub|] == sub {
      assert s[0..|sub|] == sub;
    } else {
      assert !OccursAt(s, sub, 0) by {
        assert s[0..|sub|] == s[..|sub|];
      }
      IndexOfFirst(s[1..], sub);
      forall j | 0 <= j ensures OccursAt(s[1..], sub, j) <==> OccursAt(s, sub, j + 1) {
        OccursInTail(s, sub, j);
      }
      forall j | OccursAt(s, sub, j) ensures j >= 1 && OccursAt(s[1..], sub, j - 1) {
        OccursInTail(s, sub, j - 1);
      }
    }
  }

  /** `includes` holds exactly when the search finds a position. */
  lemma ContainsIffFound(s: string, sub: string)
    ensures Contains(s, sub) <==> IndexOf(s, sub) >= 0
  {
    IndexOfFirst(s, sub);
  }

  /** Whatever `b` contains, `a + b` contains as well. */
  lemma ContainsInSuffix(a: string, b: string, sub: string)
    requires Contains(b, sub)
    ensures Contains(a + b, sub)
  {
    var k :| 0 <= k <= |b| - |sub| && OccursAt(b, sub, k);
    assert (a + b)[|a| + k..|a| + k + |sub|] == b[k..k + |sub|];
    assert OccursAt(a + b, sub, |a| + k);
  }

  /** Whatever `a` contains, `a + b` contains as well. */
  lemma ContainsInPrefix(a: string, b: string, sub: string)
    requires Contains(a, sub)
    ensures Contains(a + b, sub)
  {
    var k :| 0 <= k <= |a| - |sub| && OccursAt(a, sub, k);
    assert (a + b)[k..k + |sub|] == a[k..k + |sub|];
    assert OccursAt(a + b, sub, k);
  }

  /**
   * The characters `String.prototype.trim` strips: the ECMAScript WhiteSpace
   * characters (TAB, VT, FF, ZWNBSP and every Unicode space separator) and the
   * LineTerminator characters (LF, CR, LS, PS).
   */
  predicate IsSpace(c: char)
  {
    c == '\t' || c == '\n' || c == '\U{000B}' || c == '\U{000C}' || c == '\r' || c == ' '
    || c == '\U{00A0}' || c == '\U{1680}' || ('\U{2000}' <= c <= '\U{200A}')
    || c == '\U{2028}' || c == '\U{2029}' || c == '\U{202F}' || c == '\U{205F}'
    || c == '\U{3000}' || c == '\U{FEFF}'
  }

  predicate AllSpace(s: string)
  {
    forall i :: 0 <= i < |s| ==> IsSpace(s[i])
  }

  /** Drops the white space at the front. */
  function TrimStart(s: string): string
  {
    if s != [] && IsSpace(s[0]) then TrimStart(s[1..]) else s
  }

  /** Drops the white space at the back. */
  function TrimEnd(s: string): string
  {
    if s != [] && IsSpace(s[|s| - 1]) then TrimEnd(s[..|s| - 1]) else s
  }

  /** `s.trim()`. */
  function Trim(s: string): string
  {
    TrimEnd(TrimStart(s))
  }

  /** `TrimStart` drops exactly the run of white space at the front: `n` characters. */
  lemma {:induction false} TrimStartDrops(s: string) returns (n: nat)
    ensures n <= |s| && TrimStart(s) == s[n..]
    ensures AllSpace(s[..n]) && (n < |s| ==> !IsSpace(s[n]))
    decreases |s|
  {
    if s != [] && IsSpace(s[0]) {
      var m := TrimStartDrops(s[1..]);
      n := m + 1;
      assert s[1..][m..] == s[n..];
      assert s[..n] == [s[0]] + s[1..][..m];
      assert m < |s[1..]| ==> s[1..][m] == s[n];
    } else {
      n := 0;
    }
  }

  /** `TrimEnd` drops exactly the run of white space at the back: `n` characters. */
  lemma {:induction false} TrimEndDrops(s: string) returns (n: nat)
    ensures n <= |s| && TrimEnd(s) == s[..|s| - n]
    ensures AllSpace(s[|s| - n..]) && (n < |s| ==> !IsSpace(s[|s| - 1 - n]))
    decreases |s|
  {
    if s != [] && IsSpace(s[|s| - 1]) {
      var init := s[..|s| - 1];
      var m := TrimEndDrops(init);
      n := m + 1;
      assert init[..|init| - m] == s[..|s| - n];
      var tail := s[|s| - n..];
      forall i | 0 <= i < |tail| ensures IsSpace(tail[i]) {
        if i < m {
          assert tail[i] == init[|init| - m..][i];
        }
      }
      assert m < |init| ==> init[|init| - 1 - m] == s[|s| - 1 - n];
    } else {
      n := 0;
    }
  }

  /** The reference description of `trim`: white space, then the result, then white space. */
  lemma TrimShape(s: string) returns (p: string, q: string)
    ensures AllSpace(p) && AllSpace(q) && s == p + Trim(s) + q
  {
    var i := TrimStartDrops(s);
    var t := TrimStart(s);
    var j := TrimEndDrops(t);
    var r := TrimEnd(t);
    p, q := s[..i], t[|t| - j..];
    SplitAt(s, i);
    SplitAt(t, |t| - j);
    assert p + (r + q) == p + r + q;
  }

  lemma SplitAt(s: string, k: nat)
    requires k <= |s|
    ensures s == s[..k] + s[k..]
  {
  }

  /** The result of `trim` neither starts nor ends with white space. */
  lemma TrimEdges(s: string)
    ensures Trim(s) == [] || (!IsSpace(Trim(s)[0]) && !IsSpace(Trim(s)[|Trim(s)| - 1]))
  {
    var i := TrimStartDrops(s);
    var t := TrimStart(s);
    var j := TrimEndDrops(t);
    var r := TrimEnd(t);
    if r != [] {
      assert r[0] == t[0] == s[i];
      assert r[|r| - 1] == t[|t| - 1 - j];
    }
  }

  /** Trimming the back of a string that ends in a non-space character changes nothing. */
  lemma TrimEndKeeps(s: string)
    requires s != [] && !IsSpace(s[|s| - 1])
    ensures TrimEnd(s) == s
  {
  }

  /** Trimming the front only looks at the first part when that part is not all white space. */
  lemma {:induction false} TrimStartConcat(a: string, b: string)
    requires !AllSpace(a)
    ensures TrimStart(a + b) == TrimStart(a) + b
    decreases |a|
  {
    assert a != [];
    assert (a + b)[0] == a[0];
    if IsSpace(a[0]) {
      assert (a + b)[1..] == a[1..] + b;
      assert !AllSpace(a[1..]) by {
        var i :| 0 <= i < |a| && !IsSpace(a[i]);
        assert a[1..][i - 1] == a[i];
      }
      TrimStartConcat(a[1..], b);
    }
  }

  /** Trimming the front of text that starts with white space skips that white space. */
  lemma {:induction false} TrimStartSkipsSpace(a: string, b: string)
    requires AllSpace(a)
    ensures TrimStart(a + b) == TrimStart(b)
    decreases |a|
  {
    if a == [] {
      assert a + b == b;
    } else {
      assert (a + b)[0] == a[0];
      assert (a + b)[1..] == a[1..] + b;
      TrimStartSkipsSpace(a[1..], b);
    }
  }

  /** Trimming the front of text that is all white space leaves nothing. */
  lemma {:induction false} TrimStartOfSpace(a: string)
    requires AllSpace(a)
    ensures TrimStart(a) == []
    decreases |a|
  {
    if a != [] {
      assert IsSpace(a[0]);
      TrimStartOfSpace(a[1..]);
    }
  }
}
