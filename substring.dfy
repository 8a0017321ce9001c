/** Python's `in` operator on two strings (substring search) and the facts
    about it that the string rendering of attribute values needs. */
module Substring {

  /** `n` is a prefix of `h`. */
  predicate IsPrefix(n: string, h: string) {
    |n| <= |h| && h[..|n|] == n
  }

  /** `n in h` on Python strings: `n` occurs in `h` at some offset. The empty
      string occurs in every string. */
  function Contains(n: string, h: string): (r: bool)
    ensures r <==> exists i :: 0 <= i <= |h| && IsPrefix(n, h[i..])
    decreases |h|
  {
    assert h[0..] == h;
    if IsPrefix(n, h) then true
    else if |h| == 0 then false
    else
      var r := Contains(n, h[1..]);
      assert forall i :: 1 <= i <= |h| ==> h[1..][i - 1..] == h[i..];
      r
  }

  /** `n` occurs in any string built around it. */
  lemma ContainsInfix(a: string, n: string, b: string)
    ensures Contains(n, a + n + b)
  {
    var h := a + n + b;
    assert h[|a|..][..|n|] == n;
    assert IsPrefix(n, h[|a|..]);
  }

  /** Prefix test against a string that starts with a known character. */
  lemma PrefixCons(w: string, c: char, x: string)
    requires |w| > 0
    ensures IsPrefix(w, [c] + x) <==> w[0] == c && IsPrefix(w[1..], x)
  {
    var h := [c] + x;
    if |w| <= |h| {
      assert h[..|w|] == [c] + x[..|w| - 1];
      assert w == [w[0]] + w[1..];
    }
  }

  /** A separator `d` that does not occur in `n` splits the search: every
      occurrence of `n` in `a + [d] + b` lies wholly in `a` or wholly in `b`. */
  lemma {:induction false} ContainsAround(n: string, a: string, d: char, b: string)
    requires d !in n
    ensures Contains(n, a + [d] + b) <==> Contains(n, a) || Contains(n, b)
    decreases |a|
  {
    var h := a + [d] + b;
    if a == [] {
      assert h == [d] + b;
      assert h[1..] == b;
      assert |n| > 0 ==> n[0] != h[0];
    } else {
      assert h[1..] == a[1..] + [d] + b;
      ContainsAround(n, a[1..], d, b);
      assert |n| <= |a| ==> h[..|n|] == a[..|n|];
      assert h[|a|] == d;
      assert |a| < |n| ==> n[|a|] != d;
    }
  }

  /** When no character of `a` can start an occurrence of `n`, prefixing `a`
      neither creates nor hides one. */
  lemma {:induction false} ContainsNoStart(n: string, a: string, b: string)
    requires |n| > 0
    requires forall j :: 0 <= j < |a| ==> a[j] != n[0]
    ensures Contains(n, a + b) <==> Contains(n, b)
    decreases |a|
  {
    if a == [] {
      assert a + b == b;
    } else {
      var h := a + b;
      assert h[0] == a[0];
      assert h[1..] == a[1..] + b;
      ContainsNoStart(n, a[1..], b);
    }
  }
}
