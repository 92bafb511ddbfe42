/**
 The summation that `calculate_average` performs in Python/example_utils.py,
 stated over exact reals: an accumulator that starts at zero and has each
 element added to it in encounter order. Besides the left-to-right sum this
 module gives an independent head-first reference sum, reversal, the least
 and greatest element of a sequence, and the facts about sums that the
 average relies on: splitting over concatenation, invariance under
 reordering, and bounds from element-wise bounds.
 */
module Sums {

  /** The sum obtained by adding the elements one by one, left to right, to an
      accumulator that starts at zero: ((0 + s[0]) + s[1]) + ... */
  function Sum(s: seq<real>): real
  {
    if |s| == 0 then 0.0 else Sum(s[..|s| - 1]) + s[|s| - 1]
  }

  /** A reference sum defined the other way round: first element plus the sum
      of the rest. */
  function SumFromFront(s: seq<real>): real
  {
    if |s| == 0 then 0.0 else s[0] + SumFromFront(s[1..])
  }

  /** The elements of `s` in reverse order. */
  function Reverse(s: seq<real>): (r: seq<real>)
    ensures |r| == |s|
    ensures forall i :: 0 <= i < |s| ==> r[i] == s[|s| - 1 - i]
  {
    if |s| == 0 then [] else [s[|s| - 1]] + Reverse(s[..|s| - 1])
  }

  /** The least element of a non-empty sequence. */
  function Min(s: seq<real>): (m: real)
    requires |s| > 0
    ensures m in s
    ensures forall i :: 0 <= i < |s| ==> m <= s[i]
  {
    if |s| == 1 then s[0]
    else
      var m' := Min(s[..|s| - 1]);
      if s[|s| - 1] < m' then s[|s| - 1] else m'
  }

  /** The greatest element of a non-empty sequence. */
  function Max(s: seq<real>): (m: real)
    requires |s| > 0
    ensures m in s
    ensures forall i :: 0 <= i < |s| ==> s[i] <= m
  {
    if |s| == 1 then s[0]
    else
      var m' := Max(s[..|s| - 1]);
      if m' < s[|s| - 1] then s[|s| - 1] else m'
  }

  /** Extending the processed prefix by one element adds that element to the
      running sum: the step the accumulation loop takes. */
  lemma SumPrefixStep(s: seq<real>, i: nat)
    requires i < |s|
    ensures Sum(s[..i + 1]) == Sum(s[..i]) + s[i]
  {
    assert s[..i + 1][..i] == s[..i];
  }

  /** The sum of a concatenation is the sum of the parts. */
  lemma {:induction false} SumAppend(a: seq<real>, b: seq<real>)
    ensures Sum(a + b) == Sum(a) + Sum(b)
    decreases |b|
  {
    if |b| == 0 {
      assert a + b == a;
    } else {
      var b' := b[..|b| - 1];
      assert (a + b)[..|a + b| - 1] == a + b';
      SumAppend(a, b');
    }
  }

  /** Adding left to right and adding head-first give the same total. */
  lemma {:induction false} SumFoldsAgree(s: seq<real>)
    ensures Sum(s) == SumFromFront(s)
  {
    if |s| > 0 {
      assert s == [s[0]] + s[1..];
      assert [s[0]][..0] == [];
      SumAppend([s[0]], s[1..]);
      SumFoldsAgree(s[1..]);
    }
  }

  /** Reordering the elements does not change the sum. */
  lemma {:induction false} SumPermutation(a: seq<real>, b: seq<real>)
    requires multiset(a) == multiset(b)
    ensures Sum(a) == Sum(b)
    decreases |a|
  {
    if |a| == 0 {
      assert |b| == |multiset(b)| == 0;
    } else {
      var x := a[|a| - 1];
      var a' := a[..|a| - 1];
      assert a == a' + [x];
      assert x in multiset(b);
      var k :| 0 <= k < |b| && b[k] == x;
      var b' := b[..k] + b[k + 1..];
      assert b == b[..k] + [x] + b[k + 1..];
      assert multiset(b') == multiset(b) - multiset{x};
      assert multiset(a') == multiset(a) - multiset{x};
      SumPermutation(a', b');
      assert [x][..0] == [];
      SumAppend(b[..k], [x]);
      SumAppend(b[..k] + [x], b[k + 1..]);
      SumAppend(b[..k], b[k + 1..]);
    }
  }

  /** Reversing the elements does not change the sum. */
  lemma {:induction false} SumReverse(s: seq<real>)
    ensures Sum(Reverse(s)) == Sum(s)
  {
    if |s| > 0 {
      var init := s[..|s| - 1];
      assert [s[|s| - 1]][..0] == [];
      SumAppend([s[|s| - 1]], Reverse(init));
      SumReverse(init);
    }
  }

  /** Element-wise bounds bound the sum: n * lo <= Sum(s) <= n * hi. */
  lemma {:induction false} SumBounds(s: seq<real>, lo: real, hi: real)
    requires forall i :: 0 <= i < |s| ==> lo <= s[i] <= hi
    ensures |s| as real * lo <= Sum(s) <= |s| as real * hi
  {
    if |s| > 0 {
      var init := s[..|s| - 1];
      assert forall i :: 0 <= i < |init| ==> init[i] == s[i];
      SumBounds(init, lo, hi);
    }
  }
}
