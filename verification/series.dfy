/** The handful of pandas Series operations the dashboard relies on, over
    exact reals: `sum`, `dropna`, `dropna().iloc[-1]`, `mean(skipna=True)` and
    `rolling(window).mean()`. A NaN entry is `None`. */
module Series {
  import opened Wrappers

  /** Sum of a sequence, peeled from the back. */
  function Sum(xs: seq<real>): real
  {
    if |xs| == 0 then 0.0 else Sum(xs[..|xs| - 1]) + xs[|xs| - 1]
  }

  /** `dropna()`: the defined entries, in their original order. */
  function DropNa(xs: seq<Option<real>>): (d: seq<real>)
    ensures |d| <= |xs|
    ensures |d| == 0 <==> forall i :: 0 <= i < |xs| ==> xs[i].None?
  {
    if |xs| == 0 then []
    else
      var rest := DropNa(xs[..|xs| - 1]);
      assert forall i :: 0 <= i < |xs| - 1 ==> xs[..|xs| - 1][i] == xs[i];
      match xs[|xs| - 1]
      case Some(v) => rest + [v]
      case None => rest
  }

  /** `dropna()` keeps exactly the defined values: each value it keeps is
      defined in `xs`, and each defined value of `xs` is kept. */
  lemma {:induction false} DropNaMembers(xs: seq<Option<real>>)
    ensures forall v :: v in DropNa(xs) ==> Some(v) in xs
    ensures forall i :: 0 <= i < |xs| && xs[i].Some? ==> xs[i].value in DropNa(xs)
  {
    if |xs| > 0 {
      var init := xs[..|xs| - 1];
      DropNaMembers(init);
      assert xs == init + [xs[|xs| - 1]];
      forall i | 0 <= i < |xs| - 1 && xs[i].Some? ensures xs[i].value in DropNa(xs) {
        assert init[i] == xs[i];
      }
    }
  }

  /** `dropna().iloc[-1]` guarded by `dropna().empty`: the value of the last
      defined entry, which need not sit at the last index. */
  function LastDefined(xs: seq<Option<real>>): (r: Option<real>)
    ensures r.None? <==> forall i :: 0 <= i < |xs| ==> xs[i].None?
    ensures r.Some? ==> exists k :: IsLastDefined(xs, k) && xs[k] == r
  {
    if |DropNa(xs)| == 0 then None
    else
      LastOfDropNa(xs);
      assert exists k :: IsLastDefined(xs, k) && xs[k] == Some(DropNa(xs)[|DropNa(xs)| - 1]);
      Some(DropNa(xs)[|DropNa(xs)| - 1])
  }

  /** Index `k` holds the last defined entry of `xs`. */
  predicate IsLastDefined(xs: seq<Option<real>>, k: int)
  {
    0 <= k < |xs| && xs[k].Some? && forall j :: k < j < |xs| ==> xs[j].None?
  }

  /** The last element of `dropna()` is the value of the last defined entry. */
  lemma LastOfDropNa(xs: seq<Option<real>>)
    ensures |DropNa(xs)| > 0 ==>
      exists k :: IsLastDefined(xs, k) && xs[k] == Some(DropNa(xs)[|DropNa(xs)| - 1])
  {
    if |DropNa(xs)| > 0 {
      var k := LastDefinedIndex(xs);
      assert IsLastDefined(xs, k) && xs[k] == Some(DropNa(xs)[|DropNa(xs)| - 1]);
    }
  }

  /** The index of the entry `dropna()` ends with. */
  lemma {:induction false} LastDefinedIndex(xs: seq<Option<real>>) returns (k: nat)
    requires |DropNa(xs)| > 0
    ensures IsLastDefined(xs, k) && xs[k] == Some(DropNa(xs)[|DropNa(xs)| - 1])
  {
    var init := xs[..|xs| - 1];
    if xs[|xs| - 1].Some? {
      k := |xs| - 1;
    } else {
      assert DropNa(xs) == DropNa(init);
      k := LastDefinedIndex(init);
      ExtendLastDefined(init, k, xs[|xs| - 1]);
      assert init + [xs[|xs| - 1]] == xs;
    }
  }

  /** Appending a missing entry keeps the last defined index. */
  lemma ExtendLastDefined(init: seq<Option<real>>, k: nat, x: Option<real>)
    requires IsLastDefined(init, k) && x.None?
    ensures IsLastDefined(init + [x], k) && (init + [x])[k] == init[k]
  {
  }

  /** `mean(skipna=True)`: the arithmetic mean of the defined entries only,
      NaN when there are none. */
  function Mean(xs: seq<Option<real>>): (r: Option<real>)
    ensures r.None? <==> forall i :: 0 <= i < |xs| ==> xs[i].None?
  {
    var d := DropNa(xs);
    if |d| == 0 then None else Some(Sum(d) / (|d| as real))
  }

  /** `rolling(window).mean()` at index `i` of a NaN-free series: defined once
      `window` values are present, i.e. from index `window - 1` on. */
  function RollingMean(xs: seq<real>, window: nat, i: nat): (r: Option<real>)
    requires window >= 1 && i < |xs|
    ensures r.Some? <==> window <= i + 1
    ensures (forall j :: 0 <= j < |xs| ==> xs[j] >= 0.0) ==> (r.Some? ==> r.value >= 0.0)
  {
    if i + 1 < window then None
    else
      var w := xs[i + 1 - window..i + 1];
      assert forall j :: 0 <= j < |w| ==> w[j] == xs[i + 1 - window + j];
      SumNonNegative(w);
      Some(Sum(w) / (window as real))
  }

  /** A NaN-free column as a column that may hold NaN. */
  function Lift(xs: seq<real>): (ys: seq<Option<real>>)
    ensures |ys| == |xs| && forall i :: 0 <= i < |xs| ==> ys[i] == Some(xs[i])
  {
    seq(|xs|, i requires 0 <= i < |xs| => Some(xs[i]))
  }

  /** `dropna` of a NaN-free column gives the column back. */
  lemma {:induction false} DropNaLift(xs: seq<real>)
    ensures DropNa(Lift(xs)) == xs
  {
    if |xs| > 0 {
      var n := |xs| - 1;
      assert Lift(xs)[..n] == Lift(xs[..n]);
      DropNaLift(xs[..n]);
      assert xs[..n] + [xs[n]] == xs;
    }
  }

  /** A full rolling window's value is the plain mean of the `window`
      entries ending at `i`. */
  lemma RollingMeanIsMean(xs: seq<real>, window: nat, i: nat)
    requires 1 <= window <= i + 1 && i < |xs|
    ensures RollingMean(xs, window, i) == Mean(Lift(xs[i + 1 - window..i + 1]))
  {
    DropNaLift(xs[i + 1 - window..i + 1]);
  }

  /** A sum of non-negative terms is non-negative. */
  lemma SumNonNegative(xs: seq<real>)
    ensures (forall j :: 0 <= j < |xs| ==> xs[j] >= 0.0) ==> Sum(xs) >= 0.0
  {
    if forall j :: 0 <= j < |xs| ==> xs[j] >= 0.0 {
      SumAtLeast(xs, 0.0);
    }
  }

  /** A sum of `n` terms, each at least `lo`, is at least `n * lo`. */
  lemma {:induction false} SumAtLeast(xs: seq<real>, lo: real)
    requires forall j :: 0 <= j < |xs| ==> lo <= xs[j]
    ensures (|xs| as real) * lo <= Sum(xs)
  {
    if |xs| > 0 {
      var init := xs[..|xs| - 1];
      assert forall j :: 0 <= j < |init| ==> init[j] == xs[j];
      SumAtLeast(init, lo);
    }
  }

  /** A sum of `n` terms, each at most `hi`, is at most `n * hi`. */
  lemma {:induction false} SumAtMost(xs: seq<real>, hi: real)
    requires forall j :: 0 <= j < |xs| ==> xs[j] <= hi
    ensures Sum(xs) <= (|xs| as real) * hi
  {
    if |xs| > 0 {
      var init := xs[..|xs| - 1];
      assert forall j :: 0 <= j < |init| ==> init[j] == xs[j];
      SumAtMost(init, hi);
    }
  }

  /** `dropna` distributes over concatenation: it keeps order and drops only
      the missing entries. */
  lemma {:induction false} DropNaConcat(a: seq<Option<real>>, b: seq<Option<real>>)
    ensures DropNa(a + b) == DropNa(a) + DropNa(b)
  {
    if |b| > 0 {
      var b' := b[..|b| - 1];
      assert (a + b)[..|a + b| - 1] == a + b';
      assert (a + b)[|a + b| - 1] == b[|b| - 1];
      assert b[..|b| - 1] == b';
      DropNaConcat(a, b');
      match b[|b| - 1]
      case Some(v) =>
        calc {
          DropNa(a + b);
          DropNa(a + b') + [v];
          DropNa(a) + DropNa(b') + [v];
          DropNa(a) + DropNa(b);
        }
      case None =>
        calc {
          DropNa(a + b);
          DropNa(a + b');
          DropNa(a) + DropNa(b);
        }
    } else {
      assert a + b == a;
    }
  }

  /** A missing entry anywhere in the column leaves the mean unchanged: it is
      neither counted in the denominator nor coerced to 0. */
  lemma MeanIgnoresMissing(a: seq<Option<real>>, b: seq<Option<real>>)
    ensures Mean(a + [None] + b) == Mean(a + b)
  {
    DropNaConcat(a + [None], b);
    DropNaConcat(a, [None]);
    DropNaConcat(a, b);
    assert DropNa([None]) == [];
    assert DropNa(a + [None]) == DropNa(a);
  }

  /** If every defined entry lies in [lo, hi], so does the mean. */
  lemma MeanWithinBounds(xs: seq<Option<real>>, lo: real, hi: real)
    requires forall i :: 0 <= i < |xs| && xs[i].Some? ==> lo <= xs[i].value <= hi
    ensures Mean(xs).Some? ==> lo <= Mean(xs).value <= hi
  {
    var d := DropNa(xs);
    if |d| > 0 {
      DropNaWithin(xs, lo, hi);
      AverageWithin(d, lo, hi);
    }
  }

  /** The average of a non-empty sequence of terms in [lo, hi] is in [lo, hi]. */
  lemma AverageWithin(d: seq<real>, lo: real, hi: real)
    requires |d| > 0
    requires forall j :: 0 <= j < |d| ==> lo <= d[j] <= hi
    ensures lo <= Sum(d) / (|d| as real) <= hi
  {
    SumAtLeast(d, lo);
    SumAtMost(d, hi);
    DivideBetween(Sum(d), |d| as real, lo, hi);
  }

  /** Bounds on the defined entries carry over to `dropna()`. */
  lemma DropNaWithin(xs: seq<Option<real>>, lo: real, hi: real)
    requires forall i :: 0 <= i < |xs| && xs[i].Some? ==> lo <= xs[i].value <= hi
    ensures forall j :: 0 <= j < |DropNa(xs)| ==> lo <= DropNa(xs)[j] <= hi
  {
    var d := DropNa(xs);
    DropNaMembers(xs);
    forall j | 0 <= j < |d| ensures lo <= d[j] <= hi {
      assert d[j] in d;
      assert Some(d[j]) in xs;
      var i :| 0 <= i < |xs| && xs[i] == Some(d[j]);
      assert xs[i].value == d[j];
    }
  }

  /** Dividing `n * lo <= s <= n * hi` by a positive `n`. */
  lemma DivideBetween(s: real, n: real, lo: real, hi: real)
    requires n > 0.0 && n * lo <= s <= n * hi
    ensures lo <= s / n <= hi
  {
  }

  /** The smallest element of a non-empty sequence. */
  lemma {:induction false} Minimum(d: seq<real>) returns (m: real)
    requires |d| > 0
    ensures m in d && forall j :: 0 <= j < |d| ==> m <= d[j]
  {
    if |d| == 1 {
      m := d[0];
    } else {
      var init := d[..|d| - 1];
      var m' := Minimum(init);
      assert forall j :: 0 <= j < |init| ==> init[j] == d[j];
      m := if d[|d| - 1] < m' then d[|d| - 1] else m';
    }
  }

  /** The largest element of a non-empty sequence. */
  lemma {:induction false} Maximum(d: seq<real>) returns (m: real)
    requires |d| > 0
    ensures m in d && forall j :: 0 <= j < |d| ==> d[j] <= m
  {
    if |d| == 1 {
      m := d[0];
    } else {
      var init := d[..|d| - 1];
      var m' := Maximum(init);
      assert forall j :: 0 <= j < |init| ==> init[j] == d[j];
      m := if d[|d| - 1] > m' then d[|d| - 1] else m';
    }
  }

  /** A defined mean lies between the smallest and the largest defined entry. */
  lemma MeanBetweenExtremes(xs: seq<Option<real>>)
    ensures Mean(xs).Some? ==>
      exists i, j :: 0 <= i < |xs| && 0 <= j < |xs| && xs[i].Some? && xs[j].Some? &&
        xs[i].value <= Mean(xs).value <= xs[j].value
  {
    var d := DropNa(xs);
    DropNaMembers(xs);
    if |d| > 0 {
      var lo := Minimum(d);
      var hi := Maximum(d);
      forall i | 0 <= i < |xs| && xs[i].Some? ensures lo <= xs[i].value <= hi {
        var v := xs[i].value;
        assert v in d;
        var j :| 0 <= j < |d| && d[j] == v;
      }
      MeanWithinBounds(xs, lo, hi);
      var i :| 0 <= i < |xs| && xs[i] == Some(lo);
      var j :| 0 <= j < |xs| && xs[j] == Some(hi);
      assert xs[i].value <= Mean(xs).value <= xs[j].value;
    }
  }

  /** A two-term sum, for worked examples. */
  lemma SumOfTwo(a: real, b: real)
    ensures Sum([a, b]) == a + b
  {
    assert [a, b][..1] == [a];
    assert [a][..0] == [];
    assert Sum([a]) == a;
  }
}
