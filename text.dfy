/**
 * The three JavaScript string operations the response pipeline relies on:
 * `String.prototype.includes`, `String.prototype.toLowerCase` (over ASCII
 * letters) and `String.prototype.trim`, together with the facts about them
 * that the pipeline's proofs need.
 */
module Text {

  /** `p` occurs in `s` starting at index `i`. */
  predicate OccursAt(s: string, p: string, i: int)
  {
    0 <= i && i + |p| <= |s| && s[i..i + |p|] == p
  }

  /** `s.includes(p)`: some index of `s` starts an occurrence of `p`. */
  predicate Contains(s: string, p: string): (b: bool)
    ensures b ==> |p| <= |s|
    ensures p == [] || p == s ==> b
  {
    assert OccursAt(s, s, 0) && OccursAt(s, [], 0);
    exists i | 0 <= i <= |s| - |p| :: OccursAt(s, p, i)
  }

  predicate IsUpperAscii(c: char)
  {
    'A' <= c <= 'Z'
  }

  /** Lower-cases one character; only the ASCII letters A-Z change. */
  function LowerChar(c: char): char
  {
    if IsUpperAscii(c) then (c as int + 32) as char else c
  }

  /** `s.toLowerCase()`, restricted to ASCII letters. */
  function Lower(s: string): (r: string)
    ensures |r| == |s|
    ensures forall i :: 0 <= i < |s| ==> r[i] == LowerChar(s[i])
  {
    if s == [] then [] else [LowerChar(s[0])] + Lower(s[1..])
  }

  /**
   * The characters JavaScript's `trim` removes: the WhiteSpace and
   * LineTerminator code points of section 12.2 and 12.3 of ECMA-262
   * (tab, vertical tab, form feed, space, no-break space, the byte-order
   * mark, the Unicode space separators, line feed, carriage return and the
   * line and paragraph separators).
   */
  predicate IsWhitespace(c: char)
  {
    var n := c as int;
    (9 <= n <= 13) || n == 0x20 || n == 0xA0 || n == 0x1680 || (0x2000 <= n <= 0x200A)
    || n == 0x2028 || n == 0x2029 || n == 0x202F || n == 0x205F || n == 0x3000 || n == 0xFEFF
  }

  /** Drops the leading whitespace of `s`. */
  function TrimStart(s: string): (r: string)
    ensures |r| <= |s| && r == s[|s| - |r|..]
    ensures forall k :: 0 <= k < |s| - |r| ==> IsWhitespace(s[k])
    ensures r != [] ==> !IsWhitespace(r[0])
  {
    if s != [] && IsWhitespace(s[0]) then TrimStart(s[1..]) else s
  }

  /** Drops the trailing whitespace of `s`. */
  function TrimEnd(s: string): (r: string)
    ensures |r| <= |s| && r == s[..|r|]
    ensures forall k :: |r| <= k < |s| ==> IsWhitespace(s[k])
    ensures r != [] ==> !IsWhitespace(r[|r| - 1])
  {
    if s != [] && IsWhitespace(s[|s| - 1]) then TrimEnd(s[..|s| - 1]) else s
  }

  /**
   * `s.trim()`: the slice `s[i..j]` left once every leading and trailing
   * whitespace character is gone; it starts and ends with a
   * non-whitespace character unless it is empty.
   */
  function Trim(s: string): (r: string)
    ensures exists i, j :: 0 <= i <= j <= |s| && r == s[i..j]
    ensures r != [] ==> !IsWhitespace(r[0]) && !IsWhitespace(r[|r| - 1])
    ensures s != [] && !IsWhitespace(s[0]) && !IsWhitespace(s[|s| - 1]) ==> r == s
  {
    var t := TrimStart(s);
    var r := TrimEnd(t);
    assert r == s[|s| - |t|..|s| - |t| + |r|];
    r
  }

  /** A text with no whitespace at either end, padded with whitespace, trims back to itself. */
  lemma TrimPadded(pre: string, w: string, post: string)
    requires forall c | c in pre :: IsWhitespace(c)
    requires forall c | c in post :: IsWhitespace(c)
    requires w == [] || (!IsWhitespace(w[0]) && !IsWhitespace(w[|w| - 1]))
    ensures Trim(pre + w + post) == w
  {
    if w == [] {
      assert pre + w + post == pre + post;
      forall c | c in pre + post ensures IsWhitespace(c) {
        assert c in pre || c in post;
      }
      TrimStartPadded(pre + post, []);
      assert pre + post + [] == pre + post;
    } else {
      assert pre + w + post == pre + (w + post);
      TrimStartPadded(pre, w + post);
    }
    TrimEndPadded(w, post);
  }

  /** `TrimStart` drops exactly a whitespace prefix in front of a text not starting with whitespace. */
  lemma {:induction false} TrimStartPadded(pre: string, rest: string)
    requires forall c | c in pre :: IsWhitespace(c)
    requires rest == [] || !IsWhitespace(rest[0])
    ensures TrimStart(pre + rest) == rest
  {
    if pre != [] {
      assert pre[0] in pre;
      assert (pre + rest)[0] == pre[0];
      assert (pre + rest)[1..] == pre[1..] + rest;
      forall c | c in pre[1..] ensures IsWhitespace(c) {
        assert c in pre;
      }
      TrimStartPadded(pre[1..], rest);
    } else {
      assert pre + rest == rest;
    }
  }

  /** `TrimEnd` drops exactly a whitespace suffix after a text not ending in whitespace. */
  lemma {:induction false} TrimEndPadded(rest: string, post: string)
    requires forall c | c in post :: IsWhitespace(c)
    requires rest == [] || !IsWhitespace(rest[|rest| - 1])
    ensures TrimEnd(rest + post) == rest
  {
    if post != [] {
      var n := |post| - 1;
      assert post[n] in post;
      assert (rest + post)[|rest + post| - 1] == post[n];
      assert (rest + post)[..|rest + post| - 1] == rest + post[..n];
      forall c | c in post[..n] ensures IsWhitespace(c) {
        assert c in post;
      }
      TrimEndPadded(rest, post[..n]);
    } else {
      assert rest + post == rest;
    }
  }

  // ---------------------------------------------------------------------
  // Facts about Contains

  /** Each character of an occurrence is the pattern's character. */
  lemma OccurrenceAt(s: string, p: string, i: int, j: int)
    requires OccursAt(s, p, i) && i <= j < i + |p|
    ensures s[j] == p[j - i]
  {
    assert s[i..i + |p|][j - i] == s[j];
  }

  /** A pattern placed between two strings is found there. */
  lemma ContainsMiddle(a: string, p: string, b: string)
    ensures Contains(a + p + b, p)
  {
    assert (a + p + b)[|a|..|a| + |p|] == p;
    assert OccursAt(a + p + b, p, |a|);
  }

  /** Appending text after `s` keeps every occurrence found in `s`. */
  lemma ContainsPrefix(a: string, b: string, p: string)
    requires Contains(a, p)
    ensures Contains(a + b, p)
  {
    var i :| 0 <= i <= |a| - |p| && OccursAt(a, p, i);
    assert (a + b)[i..i + |p|] == a[i..i + |p|];
    assert OccursAt(a + b, p, i);
  }

  /** Prepending text before `s` keeps every occurrence found in `s`. */
  lemma ContainsSuffix(a: string, b: string, p: string)
    requires Contains(b, p)
    ensures Contains(a + b, p)
  {
    var i :| 0 <= i <= |b| - |p| && OccursAt(b, p, i);
    assert (a + b)[|a| + i..|a| + i + |p|] == b[i..i + |p|];
    assert OccursAt(a + b, p, |a| + i);
  }

  /**
   * An occurrence of a pattern that does not contain the separator `c`
   * lies wholly on one side of it.
   */
  lemma ContainsAcrossSeparator(a: string, c: char, b: string, p: string)
    requires c !in p
    ensures Contains(a + [c] + b, p) <==> Contains(a, p) || Contains(b, p)
  {
    var s := a + [c] + b;
    if Contains(s, p) {
      var i :| 0 <= i <= |s| - |p| && OccursAt(s, p, i);
      if i + |p| <= |a| {
        assert s[i..i + |p|] == a[i..i + |p|];
        assert OccursAt(a, p, i);
      } else if i > |a| {
        assert s[i..i + |p|] == b[i - |a| - 1..i - |a| - 1 + |p|];
        assert OccursAt(b, p, i - |a| - 1);
      } else {
        OccurrenceAt(s, p, i, |a|);
        assert false;
      }
    }
    if Contains(a, p) {
      ContainsPrefix(a, [c] + b, p);
      assert a + ([c] + b) == s;
    }
    if Contains(b, p) {
      ContainsSuffix(a + [c], b, p);
    }
  }

  /**
   * When the last character of `a` is not in the pattern, an occurrence in
   * `a + b` lies wholly in `a` or wholly in `b`.
   */
  lemma ContainsAfterBreak(a: string, b: string, p: string)
    requires a != [] && a[|a| - 1] !in p
    ensures Contains(a + b, p) <==> Contains(a, p) || Contains(b, p)
  {
    var s := a + b;
    if Contains(s, p) {
      var i :| 0 <= i <= |s| - |p| && OccursAt(s, p, i);
      if i + |p| <= |a| {
        assert s[i..i + |p|] == a[i..i + |p|];
        assert OccursAt(a, p, i);
      } else if i >= |a| {
        assert s[i..i + |p|] == b[i - |a|..i - |a| + |p|];
        assert OccursAt(b, p, i - |a|);
      } else {
        OccurrenceAt(s, p, i, |a| - 1);
        assert false;
      }
    }
    if Contains(a, p) {
      ContainsPrefix(a, b, p);
    }
    if Contains(b, p) {
      ContainsSuffix(a, b, p);
    }
  }

  /** A pattern with a character that `s` lacks does not occur in `s`. */
  lemma NotContainsMissingChar(s: string, p: string, k: nat)
    requires k < |p| && p[k] !in s
    ensures !Contains(s, p)
  {
    if Contains(s, p) {
      var i :| 0 <= i <= |s| - |p| && OccursAt(s, p, i);
      OccurrenceAt(s, p, i, i + k);
      assert false;
    }
  }

  /**
   * A pattern is absent from two pieces joined together when each piece
   * lacks one of its characters and the first piece ends in a character
   * the pattern does not have.
   */
  lemma NotContainsPieces(a: string, b: string, p: string, ka: nat, kb: nat)
    requires a != [] && a[|a| - 1] !in p
    requires ka < |p| && p[ka] !in a
    requires kb < |p| && p[kb] !in b
    ensures !Contains(a + b, p)
  {
    NotContainsMissingChar(a, p, ka);
    NotContainsMissingChar(b, p, kb);
    ContainsAfterBreak(a, b, p);
  }

  // ---------------------------------------------------------------------
  // Facts about Lower

  lemma {:induction false} LowerAppend(a: string, b: string)
    ensures Lower(a + b) == Lower(a) + Lower(b)
  {
    assert |Lower(a + b)| == |Lower(a) + Lower(b)|;
    forall i | 0 <= i < |a + b|
      ensures Lower(a + b)[i] == (Lower(a) + Lower(b))[i]
    {
      if i < |a| {
        assert (a + b)[i] == a[i];
      } else {
        assert (a + b)[i] == b[i - |a|];
      }
    }
  }

  /** An occurrence of an already lower-case pattern survives lower-casing. */
  lemma ContainsLower(s: string, p: string)
    requires Contains(s, p) && Lower(p) == p
    ensures Contains(Lower(s), p)
  {
    var i :| 0 <= i <= |s| - |p| && OccursAt(s, p, i);
    assert Lower(s)[i..i + |p|] == Lower(s[i..i + |p|]);
    assert OccursAt(Lower(s), p, i);
  }

  /** Only a letter itself or its upper-case form lower-cases to that letter. */
  lemma LowerCharOf(c: char, d: char)
    requires 'a' <= d <= 'z' && LowerChar(c) == d
    ensures c == d || c == (d as int - 32) as char
  {
  }

  /**
   * A lower-case letter of the pattern that `s` has in neither case keeps
   * the pattern out of the lower-cased `s`.
   */
  lemma NotContainsLowerMissingChar(s: string, p: string, k: nat)
    requires k < |p| && 'a' <= p[k] <= 'z'
    requires p[k] !in s && (p[k] as int - 32) as char !in s
    ensures !Contains(Lower(s), p)
  {
    if Contains(Lower(s), p) {
      var i :| 0 <= i <= |Lower(s)| - |p| && OccursAt(Lower(s), p, i);
      OccurrenceAt(Lower(s), p, i, i + k);
      LowerCharOf(s[i + k], p[k]);
      assert false;
    }
  }

  /** Lower-casing twice is lower-casing once. */
  lemma LowerIdempotent(s: string)
    ensures Lower(Lower(s)) == Lower(s)
  {
  }
}
