/** The few array operations the application borrows from numpy:
    `np.where(mask)`, fancy indexing `a[idx]` and `np.sum`. */
module Arrays {

  /** `np.where(mask)`: the positions at which `mask` holds, in increasing order. */
  function Where(mask: seq<bool>): (r: seq<nat>)
    ensures forall k :: 0 <= k < |r| ==> r[k] < |mask| && mask[r[k]]
    ensures forall i :: 0 <= i < |mask| && mask[i] ==> i in r
    ensures forall j, k :: 0 <= j < k < |r| ==> r[j] < r[k]
  {
    if |mask| == 0 then []
    else
      var n := |mask| - 1;
      assert forall i :: 0 <= i < n ==> mask[..n][i] == mask[i];
      Where(mask[..n]) + (if mask[n] then [n] else [])
  }

  /** Fancy indexing `s[idx]`. */
  function Pick<T>(s: seq<T>, idx: seq<nat>): (r: seq<T>)
    requires forall k :: 0 <= k < |idx| ==> idx[k] < |s|
    ensures |r| == |idx| && forall k :: 0 <= k < |idx| ==> r[k] == s[idx[k]]
  {
    seq(|idx|, k requires 0 <= k < |idx| => s[idx[k]])
  }

  /** Element-wise negation of a mask. */
  function Negate(mask: seq<bool>): (r: seq<bool>)
    ensures |r| == |mask|
  {
    seq(|mask|, i requires 0 <= i < |mask| => !mask[i])
  }

  /** `np.sum`: zero for the empty array. */
  function Sum(s: seq<real>): real
  {
    if |s| == 0 then 0.0 else Sum(s[..|s| - 1]) + s[|s| - 1]
  }

  /** Summing from the front agrees with `Sum`, which adds from the back. */
  lemma {:induction false} SumFront(s: seq<real>)
    requires |s| > 0
    ensures Sum(s) == s[0] + Sum(s[1..])
  {
    var n := |s| - 1;
    if n > 0 {
      SumFront(s[..n]);
      assert s[..n][1..] == s[1..][..n - 1];
    }
  }

  /** A mask and its negation select every position exactly once between them. */
  lemma {:induction false} WhereCountsPartition(mask: seq<bool>)
    ensures |Where(mask)| + |Where(Negate(mask))| == |mask|
  {
    if |mask| > 0 {
      var n := |mask| - 1;
      var neg := Negate(mask);
      assert neg[..n] == Negate(mask[..n]);
      assert |Where(mask[..n])| + |Where(neg[..n])| == n by {
        WhereCountsPartition(mask[..n]);
      }
      assert |Where(mask)| == |Where(mask[..n])| + (if mask[n] then 1 else 0) by {
        WhereStep(mask);
      }
      assert |Where(neg)| == |Where(neg[..n])| + (if mask[n] then 0 else 1) by {
        WhereStep(neg);
      }
    }
  }

  /** A sum of non-negative values is non-negative. */
  lemma {:induction false} SumNonNegative(s: seq<real>)
    requires forall k :: 0 <= k < |s| ==> s[k] >= 0.0
    ensures Sum(s) >= 0.0
  {
    if |s| > 0 {
      SumNonNegative(s[..|s| - 1]);
    }
  }

  /** A sum of non-positive values is non-positive. */
  lemma {:induction false} SumNonPositive(s: seq<real>)
    requires forall k :: 0 <= k < |s| ==> s[k] <= 0.0
    ensures Sum(s) <= 0.0
  {
    if |s| > 0 {
      SumNonPositive(s[..|s| - 1]);
    }
  }

  /** A sum of negative values over a non-empty array is negative. */
  lemma {:induction false} SumNegative(s: seq<real>)
    requires |s| > 0
    requires forall k :: 0 <= k < |s| ==> s[k] < 0.0
    ensures Sum(s) < 0.0
  {
    SumNonPositive(s[..|s| - 1]);
  }

  lemma SumAppend(s: seq<real>, v: real)
    ensures Sum(s + [v]) == Sum(s) + v
  {
    assert (s + [v])[..|s|] == s;
  }

  /** Picking positions that all lie in a prefix reads the same values from the prefix. */
  lemma PickFromPrefix<T>(s: seq<T>, n: nat, idx: seq<nat>)
    requires n <= |s|
    requires forall k :: 0 <= k < |idx| ==> idx[k] < n
    ensures Pick(s, idx) == Pick(s[..n], idx)
  {
  }

  /** A mask that holds nowhere selects nothing. */
  lemma {:induction false} WhereNone(mask: seq<bool>)
    requires forall i :: 0 <= i < |mask| ==> !mask[i]
    ensures Where(mask) == []
  {
    if |mask| > 0 {
      WhereNone(mask[..|mask| - 1]);
    }
  }

  /** Extending a mask by one entry extends its selection by that position or by nothing. */
  lemma WhereStep(mask: seq<bool>)
    requires |mask| > 0
    ensures Where(mask) == Where(mask[..|mask| - 1]) + (if mask[|mask| - 1] then [|mask| - 1] else [])
  {
  }

  /** The sum of what `idx + [n]` picks is the sum of what `idx` picks plus `s[n]`. */
  lemma SumPickAppend(s: seq<real>, idx: seq<nat>, n: nat)
    requires n < |s|
    requires forall k :: 0 <= k < |idx| ==> idx[k] < n
    ensures Sum(Pick(s, idx + [n])) == Sum(Pick(s[..n], idx)) + s[n]
  {
    PickFromPrefix(s, n, idx);
    assert Pick(s, idx + [n]) == Pick(s, idx) + [s[n]];
    SumAppend(Pick(s, idx), s[n]);
  }

  /** What a mask selects and what its negation selects add up to the whole sum:
      no value is dropped and none is counted twice. */
  lemma {:induction false} SumOverPartition(s: seq<real>, mask: seq<bool>)
    requires |mask| == |s|
    ensures Sum(Pick(s, Where(mask))) + Sum(Pick(s, Where(Negate(mask)))) == Sum(s)
  {
    if |s| > 0 {
      var n := |s| - 1;
      var m', neg := mask[..n], Negate(mask);
      assert neg[..n] == Negate(m');
      var w, v := Where(m'), Where(Negate(m'));
      SumOverPartition(s[..n], m');
      assert Sum(Pick(s[..n], w)) + Sum(Pick(s[..n], v)) == Sum(s[..n]);
      WhereStep(mask);
      WhereStep(neg);
      if mask[n] {
        assert Where(mask) == w + [n] && Where(neg) == v;
        SumPickAppend(s, w, n);
        PickFromPrefix(s, n, v);
      } else {
        assert Where(mask) == w && Where(neg) == v + [n];
        SumPickAppend(s, v, n);
        PickFromPrefix(s, n, w);
      }
    }
  }
}
