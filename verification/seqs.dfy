/** Sequence operations shared by every list the application keeps: `Array.prototype.filter`,
    order-preserving subsequences, duplicate-free lists and the add-or-remove toggle. */
module Seqs {

  /** The elements of `s` that satisfy `p`, in their original order (`s.filter(p)`).
      Each element is kept with all its occurrences or dropped with all of them. */
  function Filter<T(==,!new)>(p: T -> bool, s: seq<T>): (r: seq<T>)
    ensures |r| <= |s|
    ensures forall x {:trigger multiset(r)[x]} :: multiset(r)[x] == if p(x) then multiset(s)[x] else 0
    ensures forall x {:trigger x in r} :: x in r <==> x in s && p(x)
    decreases |s|
  {
    if |s| == 0 then []
    else
      assert s == [s[0]] + s[1..];
      (if p(s[0]) then [s[0]] else []) + Filter(p, s[1..])
  }

  /** `a` can be obtained from `b` by deleting elements: `a` keeps `b`'s order. */
  predicate IsSubsequence<T(==,!new)>(a: seq<T>, b: seq<T>)
    decreases |b|
  {
    if |a| == 0 then true
    else if |b| == 0 then false
    else (a[0] == b[0] && IsSubsequence(a[1..], b[1..])) || IsSubsequence(a, b[1..])
  }

  /** No element occurs twice. */
  predicate NoDuplicates<T(==,!new)>(s: seq<T>) {
    forall x | x in s :: multiset(s)[x] == 1
  }

  /** Every occurrence of `x` deleted, the rest kept in order (`s.filter(y => y !== x)`). */
  function Remove<T(==,!new)>(s: seq<T>, x: T): (r: seq<T>)
    ensures x !in r
    ensures forall y {:trigger y in r} :: y != x ==> (y in r <==> y in s)
    ensures forall y {:trigger multiset(r)[y]} :: y != x ==> multiset(r)[y] == multiset(s)[y]
    ensures IsSubsequence(r, s)
    ensures NoDuplicates(s) ==> NoDuplicates(r)
  {
    FilterIsSubsequence(y => y != x, s);
    Filter(y => y != x, s)
  }

  /** The membership toggle used for check-box style selections: `x` is removed when present
      and appended when absent. */
  function Toggle<T(==,!new)>(s: seq<T>, x: T): (r: seq<T>)
    ensures x in r <==> x !in s
    ensures forall y {:trigger y in r} :: y != x ==> (y in r <==> y in s)
    ensures x !in s ==> r == s + [x]
    ensures x in s ==> IsSubsequence(r, s)
    ensures x in s ==> forall y {:trigger multiset(r)[y]} :: y != x ==> multiset(r)[y] == multiset(s)[y]
    ensures NoDuplicates(s) ==> NoDuplicates(r)
  {
    AppendFreshKeepsNoDuplicates(s, x);
    if x in s then Remove(s, x) else s + [x]
  }

  /** Appending an element that is not yet present keeps a list duplicate-free. */
  lemma AppendFreshKeepsNoDuplicates<T(!new)>(s: seq<T>, x: T)
    ensures NoDuplicates(s) && x !in s ==> NoDuplicates(s + [x])
  {
    assert forall y :: multiset(s + [x])[y] == multiset(s)[y] + multiset([x])[y];
  }

  lemma {:induction false} SubsequenceOfCons<T(!new)>(a: seq<T>, x: T, b: seq<T>)
    requires IsSubsequence(a, b)
    ensures IsSubsequence(a, [x] + b)
  {
    if |a| > 0 {
      assert ([x] + b)[1..] == b;
    }
  }

  lemma {:induction false} SubsequenceMultiset<T(!new)>(a: seq<T>, b: seq<T>)
    requires IsSubsequence(a, b)
    ensures multiset(a) <= multiset(b)
    ensures |a| <= |b|
    decreases |b|
  {
    if |a| > 0 {
      assert b == [b[0]] + b[1..];
      if a[0] == b[0] && IsSubsequence(a[1..], b[1..]) {
        SubsequenceMultiset(a[1..], b[1..]);
        assert a == [a[0]] + a[1..];
      } else {
        SubsequenceMultiset(a, b[1..]);
      }
    }
  }

  /** The only subsequence as long as the sequence is the sequence itself. */
  lemma {:induction false} SubsequenceOfSameLength<T(!new)>(a: seq<T>, b: seq<T>)
    requires IsSubsequence(a, b) && |a| == |b|
    ensures a == b
    decreases |b|
  {
    if |a| > 0 {
      if a[0] == b[0] && IsSubsequence(a[1..], b[1..]) {
        SubsequenceOfSameLength(a[1..], b[1..]);
        assert a == [a[0]] + a[1..] && b == [b[0]] + b[1..];
      } else {
        SubsequenceMultiset(a, b[1..]);
      }
    }
  }

  /** `filter` never reorders: its result is a subsequence of its input. */
  lemma {:induction false} FilterIsSubsequence<T(!new)>(p: T -> bool, s: seq<T>)
    ensures IsSubsequence(Filter(p, s), s)
    decreases |s|
  {
    if |s| > 0 {
      FilterIsSubsequence(p, s[1..]);
      var rest := Filter(p, s[1..]);
      if p(s[0]) {
        assert Filter(p, s) == [s[0]] + rest;
        assert ([s[0]] + rest)[1..] == rest;
      } else {
        assert Filter(p, s) == rest;
        SubsequenceOfCons(rest, s[0], s[1..]);
        assert [s[0]] + s[1..] == s;
      }
    }
  }

  /** A stronger criterion keeps a subsequence of what a weaker one keeps. */
  lemma {:induction false} FilterMonotone<T(!new)>(p: T -> bool, q: T -> bool, s: seq<T>)
    requires forall x | x in s :: p(x) ==> q(x)
    ensures IsSubsequence(Filter(p, s), Filter(q, s))
    decreases |s|
  {
    if |s| > 0 {
      FilterMonotone(p, q, s[1..]);
      var ps, qs := Filter(p, s[1..]), Filter(q, s[1..]);
      if p(s[0]) {
        assert Filter(p, s) == [s[0]] + ps;
        assert Filter(q, s) == [s[0]] + qs;
        assert ([s[0]] + ps)[1..] == ps;
        assert ([s[0]] + qs)[1..] == qs;
      } else if q(s[0]) {
        assert Filter(p, s) == ps;
        assert Filter(q, s) == [s[0]] + qs;
        SubsequenceOfCons(ps, s[0], qs);
      } else {
        assert Filter(p, s) == ps;
        assert Filter(q, s) == qs;
      }
    }
  }

  /** A criterion every element meets keeps the whole sequence. */
  lemma {:induction false} FilterKeepsAll<T(!new)>(p: T -> bool, s: seq<T>)
    requires forall x | x in s :: p(x)
    ensures Filter(p, s) == s
    decreases |s|
  {
    if |s| > 0 {
      FilterKeepsAll(p, s[1..]);
      assert [s[0]] + s[1..] == s;
    }
  }

  /** Two criteria that agree on the elements of `s` select the same elements. */
  lemma {:induction false} FilterExtensional<T(!new)>(p: T -> bool, q: T -> bool, s: seq<T>)
    requires forall x | x in s :: p(x) == q(x)
    ensures Filter(p, s) == Filter(q, s)
    decreases |s|
  {
    if |s| > 0 {
      FilterExtensional(p, q, s[1..]);
    }
  }

  /** Filtering distributes over concatenation. */
  lemma {:induction false} FilterAppend<T(!new)>(p: T -> bool, a: seq<T>, b: seq<T>)
    ensures Filter(p, a + b) == Filter(p, a) + Filter(p, b)
    decreases |a|
  {
    if |a| > 0 {
      assert (a + b)[1..] == a[1..] + b;
      FilterAppend(p, a[1..], b);
    } else {
      assert a + b == b;
    }
  }

  /** When `r` holds exactly where one of two exclusive criteria holds, it keeps as many
      elements as the two together. */
  lemma {:induction false} FilterDisjointCount<T(!new)>(p: T -> bool, q: T -> bool, r: T -> bool, s: seq<T>)
    requires forall x | x in s :: !(p(x) && q(x))
    requires forall x | x in s :: r(x) == (p(x) || q(x))
    ensures |Filter(r, s)| == |Filter(p, s)| + |Filter(q, s)|
    decreases |s|
  {
    if |s| > 0 {
      FilterDisjointCount(p, q, r, s[1..]);
    }
  }

  /** Toggling an absent element twice restores the original list. */
  lemma ToggleTwiceRestores<T(!new)>(s: seq<T>, x: T)
    requires x !in s
    ensures Toggle(Toggle(s, x), x) == s
  {
    FilterAppend(y => y != x, s, [x]);
    FilterKeepsAll(y => y != x, s);
  }
}
