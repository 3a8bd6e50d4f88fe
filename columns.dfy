/** The numpy/pandas column operations the analysis pipeline is written with:
    boolean-mask selection, `diff`, `sum`, `cumsum`, `mean` and sorting. */
module Columns {

  /** `s[mask]`: the elements whose mask entry is true, in their order. */
  function Filter<T>(s: seq<T>, mask: seq<bool>): (r: seq<T>)
    requires |s| == |mask|
    ensures |r| <= |s|
  {
    if |s| == 0 then []
    else (if mask[0] then [s[0]] else []) + Filter(s[1..], mask[1..])
  }

  /** An element is selected exactly when some position holding it is
      marked true. */
  lemma {:induction false} FilterMembership<T>(s: seq<T>, mask: seq<bool>, x: T)
    requires |s| == |mask|
    ensures x in Filter(s, mask) <==> exists i :: 0 <= i < |s| && mask[i] && s[i] == x
  {
    if |s| > 0 {
      FilterMembership(s[1..], mask[1..], x);
      if x in Filter(s, mask) && !(mask[0] && s[0] == x) {
        var i :| 0 <= i < |s| - 1 && mask[1..][i] && s[1..][i] == x;
        assert mask[i + 1] && s[i + 1] == x;
      }
      if exists i :: 0 <= i < |s| && mask[i] && s[i] == x {
        var i :| 0 <= i < |s| && mask[i] && s[i] == x;
        if i > 0 {
          assert mask[1..][i - 1] && s[1..][i - 1] == x;
        }
      }
    }
  }

  /** An all-true mask selects everything. */
  lemma {:induction false} FilterAll<T>(s: seq<T>, mask: seq<bool>)
    requires |s| == |mask|
    requires forall i :: 0 <= i < |mask| ==> mask[i]
    ensures Filter(s, mask) == s
  {
    if |s| > 0 {
      FilterAll(s[1..], mask[1..]);
      assert [s[0]] + s[1..] == s;
    }
  }

  /** Pairs the elements of two columns of the same length, row by row. */
  function Zip<A, B>(xs: seq<A>, ys: seq<B>): (z: seq<(A, B)>)
    requires |xs| == |ys|
    ensures |z| == |xs|
    ensures forall k :: 0 <= k < |z| ==> z[k] == (xs[k], ys[k])
  {
    seq(|xs|, k requires 0 <= k < |xs| => (xs[k], ys[k]))
  }

  /** Selecting rows of a pair of columns is selecting the same rows of
      each column. */
  lemma {:induction false} FilterZip<A, B>(xs: seq<A>, ys: seq<B>, mask: seq<bool>)
    requires |xs| == |ys| == |mask|
    ensures |Filter(xs, mask)| == |Filter(ys, mask)|
    ensures Filter(Zip(xs, ys), mask) == Zip(Filter(xs, mask), Filter(ys, mask))
  {
    FilterLength(xs, mask);
    FilterLength(ys, mask);
    if |xs| > 0 {
      FilterZip(xs[1..], ys[1..], mask[1..]);
      assert Zip(xs, ys)[1..] == Zip(xs[1..], ys[1..]);
      assert Zip(xs, ys)[0] == (xs[0], ys[0]);
      if mask[0] {
        assert Filter(xs, mask) == [xs[0]] + Filter(xs[1..], mask[1..]);
        assert Filter(ys, mask) == [ys[0]] + Filter(ys[1..], mask[1..]);
      }
    }
  }

  /** Number of true entries of a mask. */
  function CountTrue(mask: seq<bool>): nat {
    if |mask| == 0 then 0 else (if mask[0] then 1 else 0) + CountTrue(mask[1..])
  }

  /** The selection has one element per true mask entry. */
  lemma {:induction false} FilterLength<T>(s: seq<T>, mask: seq<bool>)
    requires |s| == |mask|
    ensures |Filter(s, mask)| == CountTrue(mask)
  {
    if |s| > 0 {
      FilterLength(s[1..], mask[1..]);
    }
  }

  /** `np.diff(t)`: successive differences. */
  function Diff(t: seq<real>): (d: seq<real>)
    requires |t| >= 1
    ensures |d| == |t| - 1
  {
    seq(|t| - 1, k requires 0 <= k < |t| - 1 => t[k + 1] - t[k])
  }

  /** `np.sum`, adding from the front. */
  function Sum(s: seq<real>): real {
    if |s| == 0 then 0.0 else Sum(s[..|s| - 1]) + s[|s| - 1]
  }

  /** The differences of a series add up to its last value minus its first. */
  lemma {:induction false} SumDiff(t: seq<real>)
    requires |t| >= 1
    ensures Sum(Diff(t)) == t[|t| - 1] - t[0]
  {
    if |t| > 1 {
      var u := t[..|t| - 1];
      SumDiff(u);
      assert Diff(t)[..|t| - 2] == Diff(u);
    }
  }

  /** `np.cumsum`: entry k is the sum of the first k + 1 elements. */
  function CumSum(s: seq<real>): (c: seq<real>)
    ensures |c| == |s|
  {
    seq(|s|, k requires 0 <= k < |s| => Sum(s[..k + 1]))
  }

  /** Each running total adds one element to the previous one. */
  lemma CumSumStep(s: seq<real>, k: nat)
    requires k < |s|
    ensures CumSum(s)[k] == (if k == 0 then 0.0 else CumSum(s)[k - 1]) + s[k]
  {
    assert s[..k + 1][..k] == s[..k];
    if k == 0 {
      assert s[..1][..0] == [];
      assert Sum(s[..1]) == Sum(s[..1][..0]) + s[0];
    }
  }

  /** `np.mean` of a non-empty column. */
  function Mean(s: seq<real>): real
    requires |s| > 0
  {
    Sum(s) / (|s| as real)
  }

  /** A sum of values between `lo` and `hi` is between `|s|` times each. */
  lemma {:induction false} SumBounds(s: seq<real>, lo: real, hi: real)
    requires forall i :: 0 <= i < |s| ==> lo <= s[i] <= hi
    ensures lo * (|s| as real) <= Sum(s) <= hi * (|s| as real)
  {
    if |s| > 0 {
      SumBounds(s[..|s| - 1], lo, hi);
      assert s[|s| - 1] == s[|s| - 1];
    }
  }

  /** The mean lies between any lower and upper bound of the column. */
  lemma MeanBounds(s: seq<real>, lo: real, hi: real)
    requires |s| > 0
    requires forall i :: 0 <= i < |s| ==> lo <= s[i] <= hi
    ensures lo <= Mean(s) <= hi
  {
    SumBounds(s, lo, hi);
    var n := |s| as real;
    assert Mean(s) * n == Sum(s);
  }

  ghost predicate TotalPreorder<T(!new)>(le: (T, T) -> bool) {
    && (forall a, b :: le(a, b) || le(b, a))
    && (forall a, b, c :: le(a, b) && le(b, c) ==> le(a, c))
  }

  predicate SortedBy<T>(s: seq<T>, le: (T, T) -> bool) {
    forall i, j :: 0 <= i < j < |s| ==> le(s[i], s[j])
  }

  /** Inserts `x` before the first element it is not greater than. */
  function Insert<T>(x: T, s: seq<T>, le: (T, T) -> bool): (r: seq<T>)
    ensures multiset(r) == multiset(s) + multiset{x}
  {
    if |s| == 0 then [x]
    else if le(x, s[0]) then [x] + s
    else
      assert s == [s[0]] + s[1..];
      [s[0]] + Insert(x, s[1..], le)
  }

  /** Insertion keeps a sorted sequence sorted. */
  lemma {:induction false} InsertSorted<T(!new)>(x: T, s: seq<T>, le: (T, T) -> bool)
    requires TotalPreorder(le)
    requires SortedBy(s, le)
    ensures SortedBy(Insert(x, s, le), le)
  {
    if |s| == 0 {
    } else if le(x, s[0]) {
      var r := Insert(x, s, le);
      forall i, j | 0 <= i < j < |r| ensures le(r[i], r[j]) {
        if i == 0 && j > 1 {
          assert le(s[0], s[j - 1]);
        }
      }
    } else {
      assert le(s[0], x);
      var rest := Insert(x, s[1..], le);
      InsertSorted(x, s[1..], le);
      var r := [s[0]] + rest;
      forall j | 0 <= j < |rest| ensures le(s[0], rest[j]) {
        assert rest[j] in multiset(rest);
        if rest[j] != x {
          assert rest[j] in multiset(s[1..]);
          var m :| 0 <= m < |s[1..]| && s[1..][m] == rest[j];
          assert s[m + 1] == rest[j];
        }
      }
      forall i, j | 0 <= i < j < |r| ensures le(r[i], r[j]) {
        if i == 0 {
          assert r[j] == rest[j - 1];
        } else {
          assert r[i] == rest[i - 1] && r[j] == rest[j - 1];
        }
      }
    }
  }

  /** `sorted(s)` under a total preorder: a sorted permutation of `s`. */
  function SortBy<T(!new)>(s: seq<T>, le: (T, T) -> bool): (r: seq<T>)
    requires TotalPreorder(le)
    ensures multiset(r) == multiset(s)
    ensures SortedBy(r, le)
  {
    if |s| == 0 then []
    else
      var rest := SortBy(s[1..], le);
      InsertSorted(s[0], rest, le);
      assert s == [s[0]] + s[1..];
      Insert(s[0], rest, le)
  }
}
