/**
 * Sums, counts and the subsequence relation over sequences: the vocabulary
 * in which the contracts of the numeric steps are stated.
 */
module Seqs {

  /** The sum of a sequence of reals (numpy's `sum`, computed exactly). */
  function Sum(s: seq<real>): real
  {
    if s == [] then 0.0 else s[0] + Sum(s[1..])
  }

  /** Every element multiplied by `c` (numpy's `w * c` and `w / d`). */
  function Scale(s: seq<real>, c: real): (r: seq<real>)
    ensures |r| == |s|
    ensures forall i :: 0 <= i < |s| ==> r[i] == s[i] * c
  {
    seq(|s|, i requires 0 <= i < |s| => s[i] * c)
  }

  /** `n` copies of `x` (numpy's `ones(n) * x`). */
  function Constant(n: nat, x: real): (r: seq<real>)
    ensures |r| == n
    ensures forall i :: 0 <= i < n ==> r[i] == x
  {
    seq(n, i requires 0 <= i < n => x)
  }

  predicate NonNegative(s: seq<real>)
  {
    forall i :: 0 <= i < |s| ==> s[i] >= 0.0
  }

  /** Number of `true` entries of a boolean mask. */
  function CountTrue(mask: seq<bool>): nat
  {
    if mask == [] then 0 else (if mask[0] then 1 else 0) + CountTrue(mask[1..])
  }

  /** Number of entries strictly above `t`. */
  function CountAbove(s: seq<real>, t: real): nat
  {
    if s == [] then 0 else (if s[0] > t then 1 else 0) + CountAbove(s[1..], t)
  }

  /** Number of entries different from zero. */
  function CountNonZero(s: seq<real>): nat
  {
    if s == [] then 0 else (if s[0] != 0.0 then 1 else 0) + CountNonZero(s[1..])
  }

  /** `xs` is obtained from `ys` by deleting elements, keeping the order of the rest. */
  predicate IsSubsequence<T(==)>(xs: seq<T>, ys: seq<T>)
    decreases |ys|
  {
    if xs == [] then true
    else if ys == [] then false
    else (xs[0] == ys[0] && IsSubsequence(xs[1..], ys[1..])) || IsSubsequence(xs, ys[1..])
  }

  lemma ScaleTail(s: seq<real>, c: real)
    requires s != []
    ensures Scale(s, c)[1..] == Scale(s[1..], c)
  {
    var a, b := Scale(s, c)[1..], Scale(s[1..], c);
    assert |a| == |b|;
    forall j | 0 <= j < |a| ensures a[j] == b[j] {
      assert a[j] == Scale(s, c)[j + 1] == s[j + 1] * c;
    }
  }

  lemma {:induction false} SumScale(s: seq<real>, c: real)
    ensures Sum(Scale(s, c)) == Sum(s) * c
  {
    if s != [] {
      ScaleTail(s, c);
      SumScale(s[1..], c);
    }
  }

  lemma ScaleNonNegative(s: seq<real>, c: real)
    requires NonNegative(s) && c >= 0.0
    ensures NonNegative(Scale(s, c))
  {
    forall i | 0 <= i < |s| ensures Scale(s, c)[i] >= 0.0 {
      assert s[i] * c >= 0.0;
    }
  }

  lemma {:induction false} SumConstant(n: nat, x: real)
    ensures Sum(Constant(n, x)) == (n as real) * x
  {
    if n > 0 {
      assert Constant(n, x)[1..] == Constant(n - 1, x);
      SumConstant(n - 1, x);
    }
  }

  lemma {:induction false} SumNonNegative(s: seq<real>)
    requires NonNegative(s)
    ensures Sum(s) >= 0.0
  {
    if s != [] {
      SumNonNegative(s[1..]);
    }
  }

  /** In a sequence without negative entries no entry exceeds the sum. */
  lemma {:induction false} ElementAtMostSum(s: seq<real>, i: nat)
    requires NonNegative(s) && i < |s|
    ensures s[i] <= Sum(s)
  {
    SumNonNegative(s[1..]);
    if i > 0 {
      ElementAtMostSum(s[1..], i - 1);
    }
  }

  /** A sequence whose entries are all zero sums to zero. */
  lemma {:induction false} SumAllZero(s: seq<real>)
    requires forall i :: 0 <= i < |s| ==> s[i] == 0.0
    ensures Sum(s) == 0.0
  {
    if s != [] {
      SumAllZero(s[1..]);
    }
  }

  lemma {:induction false} CountTrueAllFalse(n: nat)
    ensures CountTrue(seq(n, i => false)) == 0
  {
    if n > 0 {
      assert seq(n, i => false)[1..] == seq(n - 1, i => false);
      CountTrueAllFalse(n - 1);
    }
  }

  /** Selecting one more position raises the count by one. */
  lemma {:induction false} CountTrueSet(mask: seq<bool>, m: nat)
    requires m < |mask| && !mask[m]
    ensures CountTrue(mask[m := true]) == CountTrue(mask) + 1
  {
    if m > 0 {
      assert mask[m := true][1..] == mask[1..][m - 1 := true];
      CountTrueSet(mask[1..], m - 1);
    }
  }

  /** A mask with fewer selected positions than entries has an unselected one. */
  lemma {:induction false} UnselectedExists(mask: seq<bool>) returns (m: nat)
    requires CountTrue(mask) < |mask|
    ensures m < |mask| && !mask[m]
  {
    if mask[0] {
      m := UnselectedExists(mask[1..]);
      m := m + 1;
    } else {
      m := 0;
    }
  }

  /** A mask with at least one selected position has a selected one. */
  lemma {:induction false} SelectedExists(mask: seq<bool>) returns (m: nat)
    requires CountTrue(mask) > 0
    ensures m < |mask| && mask[m]
  {
    if mask[0] {
      m := 0;
    } else {
      m := SelectedExists(mask[1..]);
      m := m + 1;
    }
  }

  lemma {:induction false} CountTrueAtMostLength(mask: seq<bool>)
    ensures CountTrue(mask) <= |mask|
  {
    if mask != [] {
      CountTrueAtMostLength(mask[1..]);
    }
  }

  /** Multiplying by a non-zero factor keeps the zero entries where they are. */
  lemma {:induction false} CountNonZeroScale(s: seq<real>, c: real)
    requires c != 0.0
    ensures CountNonZero(Scale(s, c)) == CountNonZero(s)
  {
    if s != [] {
      ScaleTail(s, c);
      CountNonZeroScale(s[1..], c);
    }
  }

  /** Above a non-negative threshold every counted entry is non-zero. */
  lemma {:induction false} CountAboveAtMostNonZero(s: seq<real>, t: real)
    requires t >= 0.0
    ensures CountAbove(s, t) <= CountNonZero(s)
  {
    if s != [] {
      CountAboveAtMostNonZero(s[1..], t);
    }
  }

  lemma {:induction false} CountNonZeroAtMostLength(s: seq<real>)
    ensures CountNonZero(s) <= |s|
  {
    if s != [] {
      CountNonZeroAtMostLength(s[1..]);
    }
  }

  /** Every element of a subsequence is an element of the whole sequence. */
  lemma {:induction false} SubsequenceMembers<T>(xs: seq<T>, ys: seq<T>)
    requires IsSubsequence(xs, ys)
    ensures forall x :: x in xs ==> x in ys
    decreases |ys|
  {
    if xs != [] {
      if xs[0] == ys[0] && IsSubsequence(xs[1..], ys[1..]) {
        SubsequenceMembers(xs[1..], ys[1..]);
        assert forall x :: x in xs ==> x == xs[0] || x in xs[1..];
      } else {
        SubsequenceMembers(xs, ys[1..]);
      }
    }
  }

}
