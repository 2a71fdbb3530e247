/** The missing number of a list that should hold 1 .. n with one value
    left out, found by subtracting the list's sum from n(n + 1) / 2. */
module MissingNumber {

  function Sum(s: seq<int>): int {
    if s == [] then 0 else Sum(s[..|s| - 1]) + s[|s| - 1]
  }

  /** lo, lo + 1, ..., hi - 1. */
  function Range(lo: int, hi: int): (r: seq<int>)
    ensures |r| == if lo <= hi then hi - lo else 0
    ensures forall i :: 0 <= i < |r| ==> r[i] == lo + i
    decreases hi - lo
  {
    if lo >= hi then [] else Range(lo, hi - 1) + [hi - 1]
  }

  lemma {:induction false} ConsecutiveProductIsEven(n: nat)
    ensures n * (n + 1) % 2 == 0
  {
    if n > 0 {
      ConsecutiveProductIsEven(n - 1);
      assert n * (n + 1) == (n - 1) * n + 2 * n;
    }
  }

  /** `missing_number`: with n one more than the length of the list,
      n(n + 1) / 2 minus the sum of the list. Python's floor division is
      exact here, since n(n + 1) is even. */
  function MissingNumber(list: seq<int>): (r: int)
    ensures 2 * (r + Sum(list)) == (|list| + 1) * (|list| + 2)
  {
    var n := |list| + 1;
    ConsecutiveProductIsEven(n);
    var total := n * (n + 1) / 2;
    total - Sum(list)
  }

  lemma {:induction false} SumAppend(s: seq<int>, t: seq<int>)
    ensures Sum(s + t) == Sum(s) + Sum(t)
    decreases |t|
  {
    if t == [] {
      assert s + t == s;
    } else {
      assert (s + t)[..|s + t| - 1] == s + t[..|t| - 1];
      SumAppend(s, t[..|t| - 1]);
    }
  }

  /** Taking one occurrence of x out of both sides of a multiset equality. */
  lemma {:induction false} RemoveOccurrence(front: seq<int>, x: int, t: seq<int>, i: int)
    requires multiset(front + [x]) == multiset(t)
    requires 0 <= i < |t| && t[i] == x
    ensures multiset(front) == multiset(t[..i] + t[i + 1..])
  {
    var before, after := t[..i], t[i + 1..];
    assert t == before + [x] + after;
    assert multiset(front) + multiset{x} == multiset(before + after) + multiset{x} by {
      assert multiset(t) == multiset(before) + multiset{x} + multiset(after);
      assert multiset(before + after) == multiset(before) + multiset(after);
    }
    assert multiset(front) == multiset(front) + multiset{x} - multiset{x};
    assert multiset(before + after) == multiset(before + after) + multiset{x} - multiset{x};
  }

  /** The sum of t with t[i] taken out. */
  lemma {:induction false} SumWithout(t: seq<int>, i: int)
    requires 0 <= i < |t|
    ensures Sum(t) == Sum(t[..i] + t[i + 1..]) + t[i]
  {
    var before, after := t[..i], t[i + 1..];
    calc {
      Sum(t);
      { assert t == (before + [t[i]]) + after; }
      Sum((before + [t[i]]) + after);
      { SumAppend(before + [t[i]], after); }
      Sum(before + [t[i]]) + Sum(after);
      { assert (before + [t[i]])[..|before|] == before; }
      Sum(before) + t[i] + Sum(after);
      { SumAppend(before, after); }
      Sum(before + after) + t[i];
    }
  }

  /** The sum depends only on which values occur, and how often. */
  lemma {:induction false} SumOfPermutation(s: seq<int>, t: seq<int>)
    requires multiset(s) == multiset(t)
    ensures Sum(s) == Sum(t)
    decreases |s|
  {
    if s == [] {
      assert |t| == |multiset(t)| == 0;
    } else {
      var front, last := s[..|s| - 1], s[|s| - 1];
      assert s == front + [last];
      assert last in multiset(t);
      var i :| 0 <= i < |t| && t[i] == last;
      RemoveOccurrence(front, last, t, i);
      SumOfPermutation(front, t[..i] + t[i + 1..]);
      SumWithout(t, i);
    }
  }

  /** Gauss: 1 + 2 + ... + n == n(n + 1) / 2. */
  lemma {:induction false} SumOfRange(n: nat)
    ensures 2 * Sum(Range(1, n + 1)) == n * (n + 1)
  {
    if n > 0 {
      SumOfRange(n - 1);
      var r := Range(1, n + 1);
      assert r == Range(1, n) + [n];
      assert r[..|r| - 1] == Range(1, n);
    }
  }

  /** When the list holds every value of 1 .. |list| + 1 but k, each
      exactly once, the result is k. */
  lemma {:induction false} MissingNumberCorrect(list: seq<int>, k: int)
    requires multiset(list) + multiset{k} == multiset(Range(1, |list| + 2))
    ensures MissingNumber(list) == k
  {
    var n := |list| + 1;
    var full := Range(1, n + 1);
    assert multiset(list + [k]) == multiset(full);
    SumOfPermutation(list + [k], full);
    SumAppend(list, [k]);
    assert [k][..0] == [];
    assert Sum(list) + k == Sum(full);
    SumOfRange(n);
    assert 2 * (MissingNumber(list) + Sum(list)) == 2 * Sum(full);
  }

  /** The list 1 .. n itself misses n + 1. */
  lemma {:induction false} MissingLastNumber(n: nat)
    ensures MissingNumber(Range(1, n + 1)) == n + 1
  {
    var list := Range(1, n + 1);
    assert Range(1, n + 2) == list + [n + 1];
    MissingNumberCorrect(list, n + 1);
  }
}
