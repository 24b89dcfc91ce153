/**
  Counting over sequences and the fact that a count depends only on the
  multiset of elements, which is what makes the harness's aggregation
  independent of the order in which outcomes arrive.
 */
module Collections {

  /** Number of elements of `s` satisfying `p`. */
  function Count<T>(s: seq<T>, p: T -> bool): (n: nat)
    ensures n <= |s|
  {
    if s == [] then 0 else (if p(s[0]) then 1 else 0) + Count(s[1..], p)
  }

  lemma {:induction false} CountAppend<T>(a: seq<T>, b: seq<T>, p: T -> bool)
    ensures Count(a + b, p) == Count(a, p) + Count(b, p)
    decreases |a|
  {
    if a == [] {
      assert a + b == b;
    } else {
      assert (a + b)[1..] == a[1..] + b;
      CountAppend(a[1..], b, p);
    }
  }

  /** If `b` is a reordering of a non-empty `a`, then `a`'s first element sits
      at some position `j` of `b`, and the rest of `a` is a reordering of `b`
      without that position. */
  lemma PickFirst<T>(a: seq<T>, b: seq<T>) returns (j: nat)
    requires |a| > 0
    requires multiset(a) == multiset(b)
    ensures j < |b| && b[j] == a[0]
    ensures b == b[..j] + [a[0]] + b[j + 1..]
    ensures multiset(a[1..]) == multiset(b[..j] + b[j + 1..])
  {
    assert a == [a[0]] + a[1..];
    assert a[0] in multiset(b);
    j :| 0 <= j < |b| && b[j] == a[0];
    assert b == b[..j] + [a[0]] + b[j + 1..];
    assert multiset(b) == multiset(b[..j]) + multiset{a[0]} + multiset(b[j + 1..]);
    assert multiset(a) == multiset{a[0]} + multiset(a[1..]);
    assert multiset(b[..j] + b[j + 1..]) == multiset(b[..j]) + multiset(b[j + 1..]);
    assert multiset(a[1..]) == multiset(a) - multiset{a[0]};
    assert multiset(b[..j] + b[j + 1..]) == multiset(b) - multiset{a[0]};
  }

  /** Putting a middle part in front of a reordering of the outer parts is
      still a reordering. */
  lemma MovedToFront<T>(rest: seq<T>, left: seq<T>, middle: seq<T>, right: seq<T>)
    requires multiset(rest) == multiset(left + right)
    ensures multiset(middle + rest) == multiset(left + middle + right)
  {
  }

  /** Counting does not depend on order. */
  lemma {:induction false} CountPermutation<T>(a: seq<T>, b: seq<T>, p: T -> bool)
    requires multiset(a) == multiset(b)
    ensures Count(a, p) == Count(b, p)
    decreases |a|
  {
    if a == [] {
      assert |b| == |multiset(b)| == 0;
    } else {
      var j := PickFirst(a, b);
      var rest := b[..j] + b[j + 1..];
      CountPermutation(a[1..], rest, p);
      CountAppend(b[..j] + [a[0]], b[j + 1..], p);
      CountAppend(b[..j], [a[0]], p);
      CountAppend(b[..j], b[j + 1..], p);
    }
  }
}
