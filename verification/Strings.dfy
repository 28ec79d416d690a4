/** Joining text with separators, and trimming it. */
module Strings {

  predicate Lacks(s: string, mark: char) {
    mark !in s
  }

  /** If the parts before the first separator lack it, the join can be taken apart again. */
  lemma FirstMark(mark: char, a: string, x: string, b: string, y: string)
    requires Lacks(a, mark) && Lacks(b, mark) && a + ([mark] + x) == b + ([mark] + y)
    ensures a == b && x == y
  {
    var s := a + ([mark] + x);
    assert s[|a|] == mark && s[|b|] == mark;
    assert forall k :: 0 <= k < |a| ==> s[k] == a[k] != mark;
    assert forall k :: 0 <= k < |b| ==> s[k] == b[k] != mark;
    assert a == s[..|a|] && b == s[..|b|];
    assert x == s[|a| + 1..] && y == s[|b| + 1..];
  }

  /** The same from the other end. */
  lemma LastMark(mark: char, x: string, a: string, y: string, b: string)
    requires Lacks(a, mark) && Lacks(b, mark) && x + ([mark] + a) == y + ([mark] + b)
    ensures a == b && x == y
  {
    var s := x + ([mark] + a);
    assert s[|x|] == mark && s[|y|] == mark;
    assert forall k :: |x| < k < |s| ==> s[k] == a[k - |x| - 1] != mark;
    assert forall k :: |y| < k < |s| ==> s[k] == b[k - |y| - 1] != mark;
    assert x == s[..|x|] && y == s[..|y|];
    assert a == s[|x| + 1..] && b == s[|y| + 1..];
  }

  /** Unicode White_Space. */
  predicate IsSpace(c: char) {
    || '\t' <= c <= '\r'
    || c in {' ', '\U{85}', '\U{A0}', '\U{1680}', '\U{2028}', '\U{2029}', '\U{202F}', '\U{205F}', '\U{3000}'}
    || '\U{2000}' <= c <= '\U{200A}'
  }

  function Trim(s: string): string
    decreases |s|
  {
    if s == [] then []
    else if IsSpace(s[0]) then Trim(s[1..])
    else if IsSpace(s[|s| - 1]) then Trim(s[..|s| - 1])
    else s
  }

  predicate Blank(s: string) {
    forall k :: 0 <= k < |s| ==> IsSpace(s[k])
  }

  /** What is left has no space at either end, and only spaces were taken off the ends. */
  ghost predicate TrimmedBy(s: string, t: string, front: string, back: string) {
    && s == front + t + back && Blank(front) && Blank(back)
    && (t != [] ==> !IsSpace(t[0]) && !IsSpace(t[|t| - 1]))
  }

  lemma {:induction false} TrimMeans(s: string) returns (front: string, back: string)
    ensures TrimmedBy(s, Trim(s), front, back)
    decreases |s|
  {
    if s == [] {
      front, back := [], [];
    } else if IsSpace(s[0]) {
      front, back := TrimMeans(s[1..]);
      front := MoreFront(s, Trim(s[1..]), front, back);
    } else if IsSpace(s[|s| - 1]) {
      front, back := TrimMeans(s[..|s| - 1]);
      back := MoreBack(s, Trim(s[..|s| - 1]), front, back);
    } else {
      front, back := [], [];
    }
  }

  lemma MoreFront(s: string, t: string, front: string, back: string) returns (longer: string)
    requires s != [] && IsSpace(s[0]) && TrimmedBy(s[1..], t, front, back)
    ensures TrimmedBy(s, t, longer, back)
  {
    longer := [s[0]] + front;
    assert s == [s[0]] + s[1..];
  }

  lemma MoreBack(s: string, t: string, front: string, back: string) returns (longer: string)
    requires s != [] && IsSpace(s[|s| - 1]) && TrimmedBy(s[..|s| - 1], t, front, back)
    ensures TrimmedBy(s, t, front, longer)
  {
    longer := back + [s[|s| - 1]];
    assert s == s[..|s| - 1] + [s[|s| - 1]];
  }

  lemma TrimIsEmptyIff(s: string)
    ensures Trim(s) == [] <==> Blank(s)
  {
    var front, back := TrimMeans(s);
    if Trim(s) == [] {
      assert s == front + back;
    } else {
      assert s[|front|] == Trim(s)[0];
    }
  }
}
