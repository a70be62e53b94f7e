/**
  Substring search on strings, the one piece of string behaviour the navbar
  relies on: `document.cookie.includes("auth_token")`.
 */
module Text {

  /** `p` occurs in `s` starting at index `i`. */
  predicate OccursAt(s: string, p: string, i: int) {
    0 <= i && i + |p| <= |s| && s[i..i + |p|] == p
  }

  /** `s` begins with `p`. */
  predicate StartsWith(s: string, p: string) {
    |p| <= |s| && s[..|p|] == p
  }

  /** `p` occurs somewhere in `s`: JavaScript's `String.prototype.includes`. */
  predicate Contains(s: string, p: string)
    decreases |s|
  {
    StartsWith(s, p) || (0 < |s| && Contains(s[1..], p))
  }

  /** A slice of the tail is the slice of the whole shifted by one. */
  lemma TailSlice(s: string, i: int, n: int)
    requires 1 <= i && 0 <= n && i + n <= |s|
    ensures s[1..][i - 1..i - 1 + n] == s[i..i + n]
  {
    var a, b := s[1..][i - 1..i - 1 + n], s[i..i + n];
    assert |a| == |b|;
    forall k | 0 <= k < n
      ensures a[k] == b[k]
    {
      assert a[k] == s[1..][i - 1 + k] == s[i + k];
    }
  }

  /** Every occurrence is found by `Contains`. */
  lemma {:induction false} OccursImpliesContains(s: string, p: string, i: int)
    requires OccursAt(s, p, i)
    ensures Contains(s, p)
    decreases i
  {
    if i != 0 {
      TailSlice(s, i, |p|);
      assert OccursAt(s[1..], p, i - 1);
      OccursImpliesContains(s[1..], p, i - 1);
    }
  }

  /** `Contains` only succeeds where there is an occurrence. */
  lemma {:induction false} ContainsImpliesOccurs(s: string, p: string)
    requires Contains(s, p)
    ensures exists i :: OccursAt(s, p, i)
    decreases |s|
  {
    if StartsWith(s, p) {
      assert OccursAt(s, p, 0);
    } else {
      ContainsImpliesOccurs(s[1..], p);
      var i :| OccursAt(s[1..], p, i);
      TailSlice(s, i + 1, |p|);
      assert OccursAt(s, p, i + 1);
    }
  }

  /** `Contains` agrees with the index-based reading of "occurs somewhere". */
  lemma ContainsIffOccurs(s: string, p: string)
    ensures Contains(s, p) <==> exists i :: OccursAt(s, p, i)
  {
    if Contains(s, p) {
      ContainsImpliesOccurs(s, p);
    }
    if exists i :: OccursAt(s, p, i) {
      var i :| OccursAt(s, p, i);
      OccursImpliesContains(s, p, i);
    }
  }

  /** The empty string contains no non-empty string. */
  lemma EmptyContainsNothing(p: string)
    requires 0 < |p|
    ensures !Contains("", p)
  {
  }

  /** Appending text after `a` keeps every occurrence found in `a`. */
  lemma {:induction false} ContainsAppendRight(a: string, b: string, p: string)
    requires Contains(a, p)
    ensures Contains(a + b, p)
    decreases |a|
  {
    if StartsWith(a, p) {
      assert (a + b)[..|p|] == a[..|p|];
    } else {
      assert (a + b)[1..] == a[1..] + b;
      ContainsAppendRight(a[1..], b, p);
    }
  }

  /** Prepending text before `b` keeps every occurrence found in `b`. */
  lemma {:induction false} ContainsAppendLeft(a: string, b: string, p: string)
    requires Contains(b, p)
    ensures Contains(a + b, p)
    decreases |a|
  {
    if |a| == 0 {
      assert a + b == b;
    } else {
      assert (a + b)[1..] == a[1..] + b;
      ContainsAppendLeft(a[1..], b, p);
    }
  }

  /**
    An occurrence of `p` cannot straddle a character `p` does not contain:
    it lies wholly on one side of it.
   */
  lemma {:induction false} ContainsSplit(a: string, c: char, b: string, p: string)
    requires 0 < |p| && c !in p
    requires Contains(a + [c] + b, p)
    ensures Contains(a, p) || Contains(b, p)
    decreases |a|
  {
    var s := a + [c] + b;
    if StartsWith(s, p) {
      assert s[|a|] == c;
      assert forall j :: 0 <= j < |p| ==> p[j] == s[j];
      if |p| <= |a| {
        assert a[..|p|] == s[..|p|];
        assert StartsWith(a, p);
      }
    } else if |a| == 0 {
      assert s[1..] == b;
    } else {
      assert s[1..] == a[1..] + [c] + b;
      ContainsSplit(a[1..], c, b, p);
    }
  }
}
