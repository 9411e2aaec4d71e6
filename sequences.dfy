/** Order-preserving selection and counting over sequences, the model of JavaScript's
    `Array.prototype.filter` and of `filter(...).length`. */
module Sequences {

  /** `sub` is obtained from `s` by deleting elements, keeping the order of the rest. */
  predicate IsSubsequence<T(==)>(sub: seq<T>, s: seq<T>)
    decreases |s|
  {
    if sub == [] then true
    else if s == [] then false
    else if sub[0] == s[0] then IsSubsequence(sub[1..], s[1..])
    else IsSubsequence(sub, s[1..])
  }

  /** `s.filter(keep)`. */
  function Select<T(==)>(s: seq<T>, keep: T -> bool): (r: seq<T>)
    ensures |r| <= |s|
    ensures forall i | 0 <= i < |r| :: r[i] in s && keep(r[i])
    ensures forall i | 0 <= i < |s| && keep(s[i]) :: s[i] in r
    ensures multiset(r) <= multiset(s)
  {
    if s == [] then []
    else
      assert s == [s[0]] + s[1..];
      if keep(s[0]) then [s[0]] + Select(s[1..], keep)
      else Select(s[1..], keep)
  }

  /** What `filter` keeps is an order-preserving subsequence of its input. */
  lemma {:induction false} SelectIsSubsequence<T>(s: seq<T>, keep: T -> bool)
    ensures IsSubsequence(Select(s, keep), s)
  {
    if s != [] {
      SelectIsSubsequence(s[1..], keep);
      var rest := Select(s[1..], keep);
      if keep(s[0]) {
        assert Select(s, keep) == [s[0]] + rest;
        assert ([s[0]] + rest)[1..] == rest;
      } else {
        SubsequenceOfTail(rest, s);
      }
    }
  }

  lemma {:induction false} SubsequenceOfTail<T>(sub: seq<T>, s: seq<T>)
    requires s != [] && IsSubsequence(sub, s[1..])
    ensures IsSubsequence(sub, s)
    decreases |sub| + |s|
  {
    if sub != [] && sub[0] == s[0] {
      SubsequenceDropFirst(sub, s[1..]);
    }
  }

  lemma {:induction false} SubsequenceDropFirst<T>(sub: seq<T>, s: seq<T>)
    requires sub != [] && IsSubsequence(sub, s)
    ensures IsSubsequence(sub[1..], s)
    decreases |sub| + |s|
  {
    assert s != [];
    if sub[0] == s[0] {
      SubsequenceOfTail(sub[1..], s);
    } else {
      SubsequenceDropFirst(sub, s[1..]);
      SubsequenceOfTail(sub[1..], s);
    }
  }

  /** Selecting with a predicate that holds everywhere on `s` keeps all of `s`. */
  lemma {:induction false} SelectAll<T>(s: seq<T>, keep: T -> bool)
    requires forall x | x in s :: keep(x)
    ensures Select(s, keep) == s
  {
    if s != [] {
      SelectAll(s[1..], keep);
    }
  }

  /** `s.filter(p).length`. */
  function Count<T(==)>(s: seq<T>, p: T -> bool): (n: nat)
    ensures n <= |s|
  {
    |Select(s, p)|
  }

  /** Every element satisfies exactly one of `p` and its negation. */
  lemma {:induction false} CountSplits<T>(s: seq<T>, p: T -> bool, q: T -> bool)
    requires forall x :: q(x) == !p(x)
    ensures Count(s, p) + Count(s, q) == |s|
  {
    if s != [] {
      CountSplits(s[1..], p, q);
    }
  }

  /** A predicate that implies another is counted no more often. */
  lemma {:induction false} CountMonotonic<T>(s: seq<T>, p: T -> bool, q: T -> bool)
    requires forall x :: p(x) ==> q(x)
    ensures Count(s, p) <= Count(s, q)
  {
    if s != [] {
      CountMonotonic(s[1..], p, q);
    }
  }

  /** Two predicates that agree on every element select the same elements. */
  lemma {:induction false} SelectCongruent<T>(s: seq<T>, p: T -> bool, q: T -> bool)
    requires forall x | x in s :: p(x) == q(x)
    ensures Select(s, p) == Select(s, q)
  {
    if s != [] {
      SelectCongruent(s[1..], p, q);
    }
  }

  /** Selecting from a sequence extended at the end. */
  lemma {:induction false} SelectSnoc<T>(s: seq<T>, x: T, keep: T -> bool)
    ensures Select(s + [x], keep) == Select(s, keep) + (if keep(x) then [x] else [])
  {
    if s == [] {
      assert [] + [x] == [x];
    } else {
      assert (s + [x])[1..] == s[1..] + [x];
      SelectSnoc(s[1..], x, keep);
    }
  }
}
