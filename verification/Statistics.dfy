/** The engine's own statistics over a non-empty list of non-negative durations. */
module Statistics {
  import opened Counting
  import opened Ordering
  import opened Rounding

  predicate AtMost(x: real, y: real) { x <= y }

  ghost predicate NonNegative(values: seq<real>) { forall k :: 0 <= k < |values| ==> values[k] >= 0.0 }

  function Sum(values: seq<real>): real { if values == [] then 0.0 else values[0] + Sum(values[1..]) }

  function Mean(values: seq<real>): real
    requires values != []
  {
    Over(Sum(values), |values| as real)
  }

  function Median(values: seq<real>): real
    requires values != []
  {
    var s, n := Sort(values, AtMost), |values|;
    if n % 2 == 1 then s[n / 2] else (s[n / 2 - 1] + s[n / 2]) / 2.0
  }

  function Clamp(x: int, low: int, high: int): (r: int)
    requires low <= high
    ensures low <= r <= high && (low <= x <= high ==> r == x)
  {
    if x > high then high else if x < low then low else x
  }

  /** `ceil(0.90 * n) - 1`, kept within the list. */
  function P90Index(n: nat): nat
    requires n > 0
  {
    Clamp((9 * n + 9) / 10 - 1, 0, n - 1)
  }

  function P90(values: seq<real>): real
    requires values != []
  {
    Sort(values, AtMost)[P90Index(|values|)]
  }

  /** Sum of squared deviations from `m`. */
  function Squares(values: seq<real>, m: real): real {
    if values == [] then 0.0 else Times(values[0] - m, values[0] - m) + Squares(values[1..], m)
  }

  function Variance(values: seq<real>): real
    requires values != []
  {
    if |values| > 1 then Over(Squares(values, Mean(values)), (|values| - 1) as real) else 0.0
  }

  // ---- Order statistics ----

  lemma SortedValues(values: seq<real>)
    ensures Sorted(Sort(values, AtMost), AtMost)
    ensures forall x :: x in Sort(values, AtMost) <==> x in values
  {
    SortSorts(values, AtMost);
    forall x ensures x in Sort(values, AtMost) <==> x in values { SameElements(Sort(values, AtMost), values, x); }
  }

  /** The median never exceeds the nearest-rank ninetieth percentile, and both lie among the values. */
  lemma MedianBelowP90(values: seq<real>)
    requires values != []
    ensures Median(values) <= P90(values)
    ensures NonNegative(values) ==> Median(values) >= 0.0
    ensures P90(values) in values
  {
    SortedValues(values);
    var s, n := Sort(values, AtMost), |values|;
    assert n / 2 <= P90Index(n) < n;
    assert s[P90Index(n)] in s;
    assert n / 2 < P90Index(n) ==> AtMost(s[n / 2], s[P90Index(n)]);
    assert s[n / 2] in s;
    if n % 2 == 0 {
      assert AtMost(s[n / 2 - 1], s[n / 2]);
      assert s[n / 2 - 1] in s;
    }
  }

  // ---- Ranks, by counting ----

  /** The positions of the values below `x`, and of those up to it. */
  ghost function Below(values: seq<real>, x: real): set<nat> { set k: nat | k < |values| && values[k] < x }

  ghost function UpTo(values: seq<real>, x: real): set<nat> { set k: nat | k < |values| && values[k] <= x }

  /** `x` is the `r`-th smallest of the values, counting from one. */
  ghost predicate IsNth(values: seq<real>, r: nat, x: real) {
    x in values && |Below(values, x)| < r <= |UpTo(values, x)|
  }

  /** `m` lies half-way between the values of two ranks. */
  ghost predicate IsHalfway(values: seq<real>, r: nat, next: nat, m: real) {
    exists x, y :: IsNth(values, r, x) && IsNth(values, next, y) && m + m == x + y
  }

  function BelowTest(x: real): real -> bool { (y: real) => y < x }

  function UpToTest(x: real): real -> bool { (y: real) => y <= x }

  lemma CountsAre(values: seq<real>, x: real)
    ensures |Below(values, x)| == Count(values, BelowTest(x)) && |UpTo(values, x)| == Count(values, UpToTest(x))
  {
    CountIsSize(values, BelowTest(x));
    CountIsSize(values, UpToTest(x));
    assert Below(values, x) == Where(values, BelowTest(x)) && UpTo(values, x) == Where(values, UpToTest(x));
  }

  lemma CountsClimb(values: seq<real>, x: real, y: real)
    requires x <= y
    ensures |Below(values, x)| <= |Below(values, y)| && |UpTo(values, x)| <= |UpTo(values, y)|
    ensures x < y ==> |UpTo(values, x)| <= |Below(values, y)|
  {
    CountsAre(values, x);
    CountsAre(values, y);
    CountIsMonotone(values, BelowTest(x), BelowTest(y));
    CountIsMonotone(values, UpToTest(x), UpToTest(y));
    if x < y { CountIsMonotone(values, UpToTest(x), BelowTest(y)); }
  }

  /** There is but one value of a rank. */
  lemma NthIsUnique(values: seq<real>, r: nat, x: real, y: real)
    requires IsNth(values, r, x) && IsNth(values, r, y)
    ensures x == y
  {
    if x < y { CountsClimb(values, x, y); }
    if y < x { CountsClimb(values, y, x); }
  }

  lemma CountsInSorted(s: seq<real>, k: nat)
    requires Sorted(s, AtMost) && k < |s|
    ensures Count(s, BelowTest(s[k])) <= k < Count(s, UpToTest(s[k]))
  {
    SplitCounts(s, k, s[k]);
    SplitCounts(s, k + 1, s[k]);
  }

  lemma SplitCounts(s: seq<real>, k: nat, x: real)
    requires k <= |s|
    ensures (forall j :: k <= j < |s| ==> AtMost(x, s[j])) ==> Count(s, BelowTest(x)) <= k
    ensures (forall j :: 0 <= j < k ==> AtMost(s[j], x)) ==> Count(s, UpToTest(x)) >= k
  {
    var a, b := s[..k], s[k..];
    assert s == a + b;
    CountAdds(a, b, BelowTest(x));
    CountAdds(a, b, UpToTest(x));
    CountOfAll(b, BelowTest(x));
    CountOfAll(a, UpToTest(x));
  }

  /** The sorted list holds the values by rank. */
  lemma NthOfSorted(values: seq<real>, k: nat)
    requires k < |values|
    ensures IsNth(values, k + 1, Sort(values, AtMost)[k])
  {
    var s := Sort(values, AtMost);
    SortedValues(values);
    assert s[k] in s;
    CountsInSorted(s, k);
    SortCounts(values, AtMost, BelowTest(s[k]));
    SortCounts(values, AtMost, UpToTest(s[k]));
    CountsAre(values, s[k]);
  }

  /** The nearest-rank ninetieth percentile: nine tenths of the values are at most it, and fewer are below it. */
  lemma P90IsNearestRank(values: seq<real>)
    requires values != []
    ensures P90(values) in values
    ensures 10 * |UpTo(values, P90(values))| >= 9 * |values| > 10 * |Below(values, P90(values))|
  {
    NthOfSorted(values, P90Index(|values|));
  }

  /** The median is the middle value, or half-way between the middle two; no more than half of the values lie on
      either side of it. */
  lemma MedianIsMiddle(values: seq<real>)
    requires values != []
    ensures var n, m := |values|, Median(values);
            && (n % 2 == 1 ==> IsNth(values, n / 2 + 1, m))
            && (n % 2 == 0 ==> IsHalfway(values, n / 2, n / 2 + 1, m))
            && 2 * |UpTo(values, m)| >= n >= 2 * |Below(values, m)|
  {
    var s, n, m := Sort(values, AtMost), |values|, Median(values);
    NthOfSorted(values, n / 2);
    if n % 2 == 0 {
      NthOfSorted(values, n / 2 - 1);
      SortedValues(values);
      assert AtMost(s[n / 2 - 1], s[n / 2]);
      CountsClimb(values, s[n / 2 - 1], m);
      CountsClimb(values, m, s[n / 2]);
      assert m + m == s[n / 2 - 1] + s[n / 2];
    }
  }

  // ---- Moments ----

  lemma {:induction false} SumAdds(a: seq<real>, b: seq<real>)
    ensures Sum(a + b) == Sum(a) + Sum(b)
  {
    if a == [] {
      assert a + b == b;
    } else {
      assert (a + b)[1..] == a[1..] + b;
      SumAdds(a[1..], b);
    }
  }

  /** The sums behind the mean and the variance grow by each value, and by the square of its deviation. */
  lemma SumsGrow(values: seq<real>, x: real, m: real)
    ensures Sum([]) == 0.0 && Sum(values + [x]) == Sum(values) + x
    ensures Squares([], m) == 0.0 && Squares(values + [x], m) == Squares(values, m) + Times(x - m, x - m)
  {
    SumAdds(values, [x]);
    SquaresAdd(values, [x], m);
    SumOfOne(x);
    SquaresOfOne(x, m);
  }

  lemma SumOfOne(x: real)
    ensures Sum([x]) == x
  {
    assert [x][1..] == [];
  }

  lemma SquaresOfOne(x: real, m: real)
    ensures Squares([x], m) == Times(x - m, x - m)
  {
    assert [x][1..] == [];
  }

  lemma {:induction false} SquaresAdd(a: seq<real>, b: seq<real>, m: real)
    ensures Squares(a + b, m) == Squares(a, m) + Squares(b, m)
  {
    if a == [] {
      assert a + b == b;
    } else {
      assert (a + b)[1..] == a[1..] + b;
      SquaresAdd(a[1..], b, m);
    }
  }

  /** The mean is the sum over the count, and the variance the squares about the mean over one less. */
  lemma MomentsAre(values: seq<real>)
    requires values != []
    ensures Times(Mean(values), |values| as real) == Sum(values)
    ensures |values| > 1 ==> Times(Variance(values), (|values| - 1) as real) == Squares(values, Mean(values))
    ensures |values| == 1 ==> Variance(values) == 0.0
  {
    TimesOver(Sum(values), |values| as real);
    if |values| > 1 { TimesOver(Squares(values, Mean(values)), (|values| - 1) as real); }
  }

  lemma {:induction false} SumIsNonNegative(values: seq<real>)
    requires NonNegative(values)
    ensures Sum(values) >= 0.0
  {
    if values != [] { SumIsNonNegative(values[1..]); }
  }

  /** Non-negative values have no more squares than the square of their sum. */
  lemma {:induction false} SquaresBelowSquare(values: seq<real>)
    requires NonNegative(values)
    ensures Squares(values, 0.0) <= Times(Sum(values), Sum(values))
  {
    if values != [] {
      SquaresBelowSquare(values[1..]);
      SumIsNonNegative(values[1..]);
      SquareOfSum(values[0], Sum(values[1..]));
    }
  }

  lemma SquareOfSum(x: real, y: real)
    requires x >= 0.0 && y >= 0.0
    ensures Times(x + y, x + y) >= Times(x, x) + Times(y, y)
  {
    assert (x + y) * (x + y) == x * x + y * y + 2.0 * (x * y);
  }

  lemma SquareOfDifference(x: real, m: real)
    ensures Times(x - m, x - m) == Times(x, x) - 2.0 * Times(m, x) + Times(m, m)
  {
  }

  lemma TimesAdds(m: real, x: real, y: real)
    ensures Times(m, x + y) == Times(m, x) + Times(m, y)
  {
  }

  lemma {:induction false} SquaresExpand(values: seq<real>, m: real)
    ensures Squares(values, m)
            == Squares(values, 0.0) - 2.0 * Times(m, Sum(values)) + Times(|values| as real, Times(m, m))
  {
    if values != [] {
      var x, rest := values[0], values[1..];
      SquaresExpand(rest, m);
      SquareOfDifference(x, m);
      TimesAdds(m, x, Sum(rest));
      TimesAdds(Times(m, m), 1.0, |rest| as real);
      assert |values| as real == 1.0 + |rest| as real;
      assert Times(|values| as real, Times(m, m)) == Times(m, m) + Times(|rest| as real, Times(m, m));
    }
  }

  /** The squares about the mean make at most `n * (n - 1)` times the squared mean. */
  lemma SquaresAboutMean(values: seq<real>)
    requires values != [] && NonNegative(values)
    ensures Squares(values, Mean(values))
            <= Times((|values| * (|values| - 1)) as real, Times(Mean(values), Mean(values)))
  {
    var m, n := Mean(values), |values| as real;
    SquaresExpand(values, m);
    SquaresBelowSquare(values);
    SumIsMeanTimesCount(values);
    MomentArithmetic(m, |values|);
  }

  lemma SumIsMeanTimesCount(values: seq<real>)
    requires values != []
    ensures Sum(values) == Times(|values| as real, Mean(values))
  {
  }

  lemma MomentArithmetic(m: real, n: nat)
    requires n > 0
    ensures var s := Times(n as real, m);
            Times(s, s) - 2.0 * Times(m, s) + Times(n as real, Times(m, m)) == Times((n * (n - 1)) as real, Times(m, m))
  {
    var r, q := n as real, m * m;
    assert (r * m) * (r * m) == (r * r) * q;
    assert m * (r * m) == r * q;
    assert (n * (n - 1)) as real == r * r - r;
    assert (r * r) * q - 2.0 * (r * q) + r * q == (r * r - r) * q;
  }

  /** Squared, the coefficient of variation of `n` non-negative values is at most `n`. */
  lemma VariationIsBounded(values: seq<real>, std: real)
    requires values != [] && NonNegative(values) && Mean(values) > 0.0
    requires std >= 0.0 && Times(std, std) == Variance(values)
    ensures Times(Over(std, Mean(values)), Over(std, Mean(values))) <= |values| as real
  {
    var m, n := Mean(values), |values|;
    var q := Times(m, m);
    PositiveSquare(m);
    SquareOfQuotient(std, m);
    if n > 1 {
      SquaresAboutMean(values);
      OverIsMonotone(Squares(values, m), Times((n * (n - 1)) as real, q), (n - 1) as real);
      CancelCount(n, q);
      OverIsMonotone(Variance(values), Times(n as real, q), q);
      assert Over(Times(n as real, q), q) == n as real;
    } else {
      assert Over(0.0, q) == 0.0;
    }
  }

  lemma PositiveSquare(m: real)
    requires m > 0.0
    ensures Times(m, m) > 0.0
  {
    assert Over(Times(m, m), m) == m;
    if Times(m, m) <= 0.0 { OverIsMonotone(Times(m, m), 0.0, m); }
  }

  lemma SquareOfQuotient(x: real, m: real)
    requires m > 0.0 && Times(m, m) > 0.0
    ensures Times(Over(x, m), Over(x, m)) == Over(Times(x, x), Times(m, m))
  {
    var y := x / m;
    assert x == y * m;
    assert x * x == (y * y) * (m * m) by { assert (y * m) * (y * m) == (y * y) * (m * m); }
  }

  lemma CancelCount(n: nat, q: real)
    requires n > 1
    ensures Over(Times((n * (n - 1)) as real, q), (n - 1) as real) == Times(n as real, q)
  {
    var r, p := n as real, (n - 1) as real;
    assert (n * (n - 1)) as real == r * p;
    assert (r * p) * q == (r * q) * p;
  }

  // ---- Equal values ----

  ghost predicate AllEqual(values: seq<real>, c: real) { forall k :: 0 <= k < |values| ==> values[k] == c }

  lemma {:induction false} SumOfEqual(values: seq<real>, c: real)
    requires AllEqual(values, c)
    ensures Sum(values) == Times(|values| as real, c)
  {
    if values != [] {
      SumOfEqual(values[1..], c);
      assert Times(|values| as real, c) == c + Times((|values| - 1) as real, c);
    }
  }

  lemma {:induction false} SquaresOfEqual(values: seq<real>, c: real)
    requires AllEqual(values, c)
    ensures Squares(values, c) == 0.0
  {
    if values != [] { SquaresOfEqual(values[1..], c); }
  }

  lemma EqualValuesHaveOneMiddle(values: seq<real>, c: real)
    requires values != [] && AllEqual(values, c)
    ensures Median(values) == P90(values) == c
  {
    SortedValues(values);
    var s, n := Sort(values, AtMost), |values|;
    forall k | 0 <= k < n ensures s[k] == c { assert s[k] in s; }
  }

  lemma EqualValuesHaveNoSpread(values: seq<real>, c: real)
    requires values != [] && AllEqual(values, c)
    ensures Mean(values) == c && Variance(values) == 0.0
  {
    SumOfEqual(values, c);
    SquaresOfEqual(values, c);
    assert Over(Times(|values| as real, c), |values| as real) == c;
  }
}
