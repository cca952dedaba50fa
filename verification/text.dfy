/**
 The string primitives the loader relies on: Python's `str.strip()` with no
 argument, `str.lower()`, and the `in` substring test (which is also what the
 `str.contains` alternations of the detector reduce to).
 */
module Text {

  /** True for the characters Python's `str.isspace` accepts, i.e. the ones
      `str.strip()` removes: the ASCII controls 0x09-0x0D and 0x1C-0x1F, the
      space, and the Unicode space and line/paragraph separators. */
  predicate IsSpace(c: char) {
    var n := c as int;
    || 0x09 <= n <= 0x0D
    || 0x1C <= n <= 0x20
    || n == 0x85 || n == 0xA0 || n == 0x1680
    || 0x2000 <= n <= 0x200A
    || n == 0x2028 || n == 0x2029 || n == 0x202F || n == 0x205F || n == 0x3000
  }

  /** The first index at or after `i` that does not hold whitespace (or
      `|s|` when there is none). */
  function SkipSpace(s: string, i: nat): (a: nat)
    requires i <= |s|
    ensures i <= a <= |s|
    ensures forall k :: i <= k < a ==> IsSpace(s[k])
    ensures a == |s| || !IsSpace(s[a])
    decreases |s| - i
  {
    if i < |s| && IsSpace(s[i]) then SkipSpace(s, i + 1) else i
  }

  /** The end of `s[lo..j]` once its trailing whitespace is cut away. */
  function SkipSpaceBack(s: string, lo: nat, j: nat): (b: nat)
    requires lo <= j <= |s|
    ensures lo <= b <= j
    ensures forall k :: b <= k < j ==> IsSpace(s[k])
    ensures b == lo || !IsSpace(s[b - 1])
    decreases j
  {
    if lo < j && IsSpace(s[j - 1]) then SkipSpaceBack(s, lo, j - 1) else j
  }

  /** Python's `s.strip()`: the slice of `s` left when the whitespace at both
      ends is cut away. */
  function Strip(s: string): (r: string)
    ensures exists a, b ::
              && 0 <= a <= b <= |s| && r == s[a..b]
              && (forall k :: 0 <= k < a ==> IsSpace(s[k]))
              && (forall k :: b <= k < |s| ==> IsSpace(s[k]))
    ensures r == [] || (!IsSpace(r[0]) && !IsSpace(r[|r| - 1]))
  {
    var a := SkipSpace(s, 0);
    var b := SkipSpaceBack(s, a, |s|);
    s[a..b]
  }

  /** Python's `str.lower` on one character, restricted to the ASCII letters. */
  function LowerChar(c: char): (d: char)
    ensures 'A' <= c <= 'Z' ==> d as int == c as int + 32
    ensures !('A' <= c <= 'Z') ==> d == c
  {
    if 'A' <= c <= 'Z' then (c as int + 32) as char else c
  }

  /** Python's `str.lower`, character by character. */
  function Lower(s: string): (r: string)
    ensures |r| == |s|
    ensures forall i :: 0 <= i < |s| ==> r[i] == LowerChar(s[i])
  {
    seq(|s|, i requires 0 <= i < |s| => LowerChar(s[i]))
  }

  predicate NoUpper(s: string) {
    forall i :: 0 <= i < |s| ==> !('A' <= s[i] <= 'Z')
  }

  /** Lowering leaves no upper-case letter, changes nothing else, and so is
      idempotent. */
  lemma LowerNormalises(s: string)
    ensures NoUpper(Lower(s))
    ensures NoUpper(s) ==> Lower(s) == s
    ensures Lower(Lower(s)) == Lower(s)
  {
  }

  /** `sub` occurs in `s` starting at index `i`. */
  predicate OccursAt(s: string, sub: string, i: int) {
    0 <= i && i + |sub| <= |s| && s[i..i + |sub|] == sub
  }

  /** Python's `sub in s`: `sub` occurs somewhere in `s`. */
  predicate Contains(s: string, sub: string) {
    exists i | 0 <= i <= |s| - |sub| :: OccursAt(s, sub, i)
  }

  /** Every string occurs in itself. */
  lemma ContainsSelf(s: string)
    ensures Contains(s, s)
  {
    assert s[0..|s|] == s;
    assert OccursAt(s, s, 0);
  }

  /** A witness index shows `sub` occurs in `s`. */
  lemma ContainsAt(s: string, sub: string, i: nat)
    requires OccursAt(s, sub, i)
    ensures Contains(s, sub)
  {
  }

  /** `sub` cannot occur in `s` when it is longer than `s`, or when its
      character at `j` is absent from every place an occurrence would put it. */
  lemma NotContainsWindow(s: string, sub: string, j: nat)
    requires j < |sub|
    requires |sub| > |s| || sub[j] !in s[j..|s| - |sub| + j + 1]
    ensures !Contains(s, sub)
  {
    forall i | 0 <= i <= |s| - |sub|
      ensures !OccursAt(s, sub, i)
    {
      assert s[j..|s| - |sub| + j + 1][i] == s[i + j];
      assert s[i..i + |sub|][j] == s[i + j];
    }
  }

  /** `sub` cannot occur in `s` when one of its characters is absent from `s`. */
  lemma NotContainsChar(s: string, sub: string, j: nat)
    requires j < |sub| && sub[j] !in s
    ensures !Contains(s, sub)
  {
    forall i | 0 <= i <= |s| - |sub|
      ensures !OccursAt(s, sub, i)
    {
      assert s[i + j] in s;
      assert s[i..i + |sub|][j] == s[i + j];
    }
  }

  /** An occurrence of `sub` lies either before `m + |sub| - 1` or from `m`
      on, so ruling out both parts rules out `s`. */
  lemma NotContainsSplit(s: string, sub: string, m: nat)
    requires m <= |s| && |sub| > 0
    requires !Contains(s[..if m + |sub| - 1 <= |s| then m + |sub| - 1 else |s|], sub)
    requires !Contains(s[m..], sub)
    ensures !Contains(s, sub)
  {
    var e := if m + |sub| - 1 <= |s| then m + |sub| - 1 else |s|;
    forall i | 0 <= i <= |s| - |sub|
      ensures !OccursAt(s, sub, i)
    {
      if i < m {
        assert s[..e][i..i + |sub|] == s[i..i + |sub|];
        assert !OccursAt(s[..e], sub, i);
      } else {
        assert s[m..][i - m..i - m + |sub|] == s[i..i + |sub|];
        assert !OccursAt(s[m..], sub, i - m);
      }
    }
  }

  /** Lowering never turns a character into whitespace or back. */
  lemma LowerKeepsSpace(c: char)
    ensures IsSpace(LowerChar(c)) == IsSpace(c)
  {
  }

  lemma {:induction false} SkipSpaceLower(s: string, i: nat)
    requires i <= |s|
    ensures SkipSpace(Lower(s), i) == SkipSpace(s, i)
    decreases |s| - i
  {
    if i < |s| {
      LowerKeepsSpace(s[i]);
      if IsSpace(s[i]) {
        SkipSpaceLower(s, i + 1);
      }
    }
  }

  lemma {:induction false} SkipSpaceBackLower(s: string, lo: nat, j: nat)
    requires lo <= j <= |s|
    ensures SkipSpaceBack(Lower(s), lo, j) == SkipSpaceBack(s, lo, j)
    decreases j
  {
    if lo < j {
      LowerKeepsSpace(s[j - 1]);
      if IsSpace(s[j - 1]) {
        SkipSpaceBackLower(s, lo, j - 1);
      }
    }
  }

  /** Stripping and lowering commute, so `s.strip().lower()` is also
      `s.lower().strip()`. */
  lemma StripLowerCommute(s: string)
    ensures Strip(Lower(s)) == Lower(Strip(s))
  {
    var a := SkipSpace(s, 0);
    var b := SkipSpaceBack(s, a, |s|);
    SkipSpaceLower(s, 0);
    SkipSpaceBackLower(s, a, |s|);
    LowerSlice(s, a, b);
  }

  /** Lowering a slice is slicing the lowered string. */
  lemma LowerSlice(s: string, a: nat, b: nat)
    requires a <= b <= |s|
    ensures Lower(s)[a..b] == Lower(s[a..b])
  {
    forall k | 0 <= k < b - a
      ensures Lower(s)[a..b][k] == Lower(s[a..b])[k]
    {
      assert Lower(s)[a..b][k] == Lower(s)[a + k];
      assert s[a..b][k] == s[a + k];
    }
  }

  /** A word that neither starts nor ends with whitespace survives stripping:
      if it occurs in `s`, it occurs in `s.strip()`. */
  lemma ContainsSurvivesStrip(s: string, w: string)
    requires |w| > 0 && !IsSpace(w[0]) && !IsSpace(w[|w| - 1])
    requires Contains(s, w)
    ensures Contains(Strip(s), w)
  {
    var i :| 0 <= i <= |s| - |w| && OccursAt(s, w, i);
    var a := SkipSpace(s, 0);
    var b := SkipSpaceBack(s, a, |s|);
    assert !IsSpace(s[i]) by { assert s[i] == s[i..i + |w|][0]; }
    assert !IsSpace(s[i + |w| - 1]) by { assert s[i + |w| - 1] == s[i..i + |w|][|w| - 1]; }
    OccursInSlice(s, w, i, a, b);
    ContainsAt(s[a..b], w, i - a);
  }

  /** An occurrence inside the slice `s[a..b]` is an occurrence in the slice. */
  lemma OccursInSlice(s: string, w: string, i: nat, a: nat, b: nat)
    requires a <= i && i + |w| <= b <= |s|
    requires OccursAt(s, w, i)
    ensures OccursAt(s[a..b], w, i - a)
  {
    forall k | 0 <= k < |w|
      ensures s[a..b][i - a..i - a + |w|][k] == w[k]
    {
      assert s[a..b][i - a..i - a + |w|][k] == s[i + k] == s[i..i + |w|][k];
    }
  }

  /** The substring relation is transitive. */
  lemma ContainsTransitive(s: string, mid: string, sub: string)
    requires Contains(s, mid) && Contains(mid, sub)
    ensures Contains(s, sub)
  {
    var i :| 0 <= i <= |s| - |mid| && OccursAt(s, mid, i);
    var j :| 0 <= j <= |mid| - |sub| && OccursAt(mid, sub, j);
    forall k | 0 <= k < |sub|
      ensures s[i + j + k] == sub[k]
    {
      assert sub[k] == mid[j..j + |sub|][k] == mid[j + k];
      assert mid[j + k] == s[i..i + |mid|][j + k] == s[i + j + k];
    }
    assert s[i + j..i + j + |sub|] == sub;
    assert OccursAt(s, sub, i + j);
  }
}
