/**
 * The JavaScript string operations the dashboard relies on: `toLowerCase`
 * (on the ASCII letters), `includes`, `startsWith`, the `||` fallback on
 * optional strings (where the empty string counts as missing), and the
 * decimal rendering of a natural number in a template literal.
 */
module JsString {
  import opened Wrappers

  predicate IsUpper(c: char) {
    'A' <= c <= 'Z'
  }

  predicate IsDigit(c: char) {
    '0' <= c <= '9'
  }

  function LowerChar(c: char): char {
    if IsUpper(c) then (c as int + 32) as char else c
  }

  /** `s.toLowerCase()`, restricted to the ASCII letters. */
  function ToLower(s: string): (r: string)
    ensures |r| == |s|
    ensures forall i :: 0 <= i < |s| ==> r[i] == LowerChar(s[i])
  {
    if s == [] then [] else [LowerChar(s[0])] + ToLower(s[1..])
  }

  predicate NoUpper(s: string) {
    forall i :: 0 <= i < |s| ==> !IsUpper(s[i])
  }

  /** A lowered string has no upper-case letter left, and lowering it again changes nothing. */
  lemma ToLowerNormalizes(s: string)
    ensures NoUpper(ToLower(s))
    ensures ToLower(ToLower(s)) == ToLower(s)
  {
  }

  /** Lowering leaves a string without upper-case letters unchanged. */
  lemma ToLowerOfLower(s: string)
    requires NoUpper(s)
    ensures ToLower(s) == s
  {
  }

  /** Lowering works character by character, so it distributes over concatenation. */
  lemma ToLowerConcat(a: string, b: string)
    ensures ToLower(a + b) == ToLower(a) + ToLower(b)
  {
  }

  /** `s.startsWith(p)`. */
  predicate StartsWith(s: string, p: string) {
    |p| <= |s| && s[..|p|] == p
  }

  /** `sub` occurs in `s` at offset `i`: the meaning of `s.includes(sub)`. */
  predicate OccursAt(s: string, sub: string, i: int) {
    0 <= i && i + |sub| <= |s| && s[i..i + |sub|] == sub
  }

  /** `sub[k..]` matches `s` from offset `i + k` on. */
  predicate MatchesFrom(s: string, sub: string, i: nat, k: nat)
    decreases |sub| - k
  {
    if k >= |sub| then true
    else if i + k >= |s| || s[i + k] != sub[k] then false
    else MatchesFrom(s, sub, i, k + 1)
  }

  /**
   * Some offset `j >= i` holds an occurrence of `sub`. The scan tries eight
   * offsets per step, which keeps its evaluation on literal strings shallow.
   */
  predicate IncludesFrom(s: string, sub: string, i: nat)
    decreases |s| + 1 - i
  {
    i <= |s| &&
      (MatchesFrom(s, sub, i, 0) || MatchesFrom(s, sub, i + 1, 0) || MatchesFrom(s, sub, i + 2, 0)
       || MatchesFrom(s, sub, i + 3, 0) || MatchesFrom(s, sub, i + 4, 0) || MatchesFrom(s, sub, i + 5, 0)
       || MatchesFrom(s, sub, i + 6, 0) || MatchesFrom(s, sub, i + 7, 0)
       || IncludesFrom(s, sub, i + 8))
  }

  /** `s.includes(sub)`. */
  predicate Includes(s: string, sub: string) {
    IncludesFrom(s, sub, 0)
  }

  lemma {:induction false} MatchesFromIff(s: string, sub: string, i: nat, k: nat)
    requires k <= |sub|
    ensures MatchesFrom(s, sub, i, k)
      <==> (i + |sub| <= |s| || k == |sub|) && forall j :: k <= j < |sub| ==> s[i + j] == sub[j]
    decreases |sub| - k
  {
    if k < |sub| {
      MatchesFromIff(s, sub, i, k + 1);
    }
  }

  /** Matching from offset `i` with nothing matched yet is an occurrence at `i`, once `i` is in range. */
  lemma MatchesAtIffOccurs(s: string, sub: string, i: nat)
    requires i <= |s| || |sub| > 0
    ensures MatchesFrom(s, sub, i, 0) <==> OccursAt(s, sub, i)
  {
    MatchesFromIff(s, sub, i, 0);
    if MatchesFrom(s, sub, i, 0) {
      assert s[i..i + |sub|] == sub;
    }
  }

  lemma {:induction false} IncludesFromIff(s: string, sub: string, i: nat)
    ensures IncludesFrom(s, sub, i) <==> exists j :: i <= j && OccursAt(s, sub, j)
    decreases |s| + 1 - i
  {
    if i > |s| {
      assert forall j :: i <= j ==> !OccursAt(s, sub, j);
    } else if |sub| == 0 {
      MatchesAtIffOccurs(s, sub, i);
      assert OccursAt(s, sub, i);
    } else {
      IncludesFromIff(s, sub, i + 8);
      MatchesAtIffOccurs(s, sub, i);
      MatchesAtIffOccurs(s, sub, i + 1);
      MatchesAtIffOccurs(s, sub, i + 2);
      MatchesAtIffOccurs(s, sub, i + 3);
      MatchesAtIffOccurs(s, sub, i + 4);
      MatchesAtIffOccurs(s, sub, i + 5);
      MatchesAtIffOccurs(s, sub, i + 6);
      MatchesAtIffOccurs(s, sub, i + 7);
      if exists j :: i <= j && OccursAt(s, sub, j) {
        var j :| i <= j && OccursAt(s, sub, j);
        if j >= i + 8 {
          assert IncludesFrom(s, sub, i + 8);
        } else {
          assert j == i || j == i + 1 || j == i + 2 || j == i + 3
            || j == i + 4 || j == i + 5 || j == i + 6 || j == i + 7;
        }
      }
    }
  }

  /** The scanning definition of `includes` agrees with "occurs at some offset". */
  lemma IncludesIffOccurs(s: string, sub: string)
    ensures Includes(s, sub) <==> exists i :: OccursAt(s, sub, i)
  {
    IncludesFromIff(s, sub, 0);
  }

  /** The middle part of a concatenation occurs in it, right after the first part. */
  lemma OccursBetween(a: string, b: string, c: string)
    ensures OccursAt(a + b + c, b, |a|) && Includes(a + b + c, b)
  {
    assert (a + b + c)[|a|..|a| + |b|] == b;
    assert OccursAt(a + b + c, b, |a|);
    IncludesIffOccurs(a + b + c, b);
  }

  /**
   * A separator character that `sub` does not contain splits the search:
   * no occurrence can straddle it.
   */
  lemma IncludesAcross(a: string, c: char, b: string, sub: string)
    requires c !in sub
    ensures Includes(a + [c] + b, sub) <==> Includes(a, sub) || Includes(b, sub)
  {
    var s := a + [c] + b;
    IncludesIffOccurs(s, sub);
    IncludesIffOccurs(a, sub);
    IncludesIffOccurs(b, sub);
    if i :| OccursAt(s, sub, i) {
      OccursInJoin(a, c, b, sub, i);
    }
    if i :| OccursAt(a, sub, i) {
      OccursInLeft(a, c, b, sub, i);
    }
    if i :| OccursAt(b, sub, i) {
      OccursInRight(a, c, b, sub, i);
    }
  }

  /** An occurrence in `a + [c] + b` lies wholly in `a` or wholly in `b`. */
  lemma OccursInJoin(a: string, c: char, b: string, sub: string, i: int)
    requires c !in sub && OccursAt(a + [c] + b, sub, i)
    ensures OccursAt(a, sub, i) || OccursAt(b, sub, i - |a| - 1)
  {
    var s := a + [c] + b;
    if i + |sub| <= |a| {
      assert s[i..i + |sub|] == a[i..i + |sub|];
    } else if i > |a| {
      assert s[i..i + |sub|] == b[i - |a| - 1..i - |a| - 1 + |sub|];
    } else {
      StraddleContains(s, sub, i, |a| - i);
      assert false;
    }
  }

  lemma OccursInLeft(a: string, c: char, b: string, sub: string, i: int)
    requires OccursAt(a, sub, i)
    ensures OccursAt(a + [c] + b, sub, i)
  {
    assert (a + [c] + b)[i..i + |sub|] == a[i..i + |sub|];
  }

  lemma OccursInRight(a: string, c: char, b: string, sub: string, i: int)
    requires OccursAt(b, sub, i)
    ensures OccursAt(a + [c] + b, sub, i + |a| + 1)
  {
    assert (a + [c] + b)[i + |a| + 1..i + |a| + 1 + |sub|] == b[i..i + |sub|];
  }

  /** An occurrence at `i` shows every character of `sub` in `s`. */
  lemma StraddleContains(s: string, sub: string, i: int, k: int)
    requires OccursAt(s, sub, i)
    requires 0 <= k < |sub|
    ensures s[i + k] in sub
  {
    assert s[i..i + |sub|][k] == s[i + k];
  }

  /** Every string includes itself. */
  lemma IncludesSelf(s: string)
    ensures Includes(s, s)
  {
    IncludesIffOccurs(s, s);
    assert OccursAt(s, s, 0);
  }

  /** Whatever occurs in a lowered string contains no upper-case letter. */
  lemma IncludedInLowerHasNoUpper(s: string, sub: string)
    requires Includes(ToLower(s), sub)
    ensures NoUpper(sub)
  {
    IncludesIffOccurs(ToLower(s), sub);
    var i :| OccursAt(ToLower(s), sub, i);
    forall k | 0 <= k < |sub| ensures !IsUpper(sub[k]) {
      assert sub[k] == ToLower(s)[i + k];
    }
  }

  /** JavaScript's `a || b` on an optional string: the empty string is falsy. */
  function OrElse(a: Option<string>, b: Option<string>): Option<string> {
    if Truthy(a) then a else b
  }

  predicate Truthy(a: Option<string>) {
    a.Some? && a.value != ""
  }

  function DigitChar(d: nat): char
    requires d < 10
  {
    ('0' as int + d) as char
  }

  /** The decimal rendering of `n`, as `${n}` produces it. */
  function NatToString(n: nat): (r: string)
    ensures |r| >= 1
    ensures forall i :: 0 <= i < |r| ==> IsDigit(r[i])
  {
    if n < 10 then [DigitChar(n)] else NatToString(n / 10) + [DigitChar(n % 10)]
  }

  /** The decimal rendering of an integer, with a leading `-` when negative. */
  function IntToString(n: int): (r: string)
    ensures n >= 0 ==> r == NatToString(n)
    ensures n < 0 ==> r == "-" + NatToString(-n)
  {
    if n >= 0 then NatToString(n) else "-" + NatToString(-n)
  }
}
