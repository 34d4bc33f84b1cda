/**
 * The statistics helpers of geowarp.js: forEach's no-data filter, mean, the
 * max / min / median wrappers and their fall-back to out_no_data, and the
 * small array helpers uniq, range and indexOf.
 *
 * fast-max, fast-min and faster-median are libraries whose code is not part
 * of this model; ExtMax, ExtMin and ExtMedian stand in for them with reference
 * definitions: they drop the values `===` the no-data value and return None
 * (JavaScript's undefined) when nothing is left.
 */
module Reducers {
  import opened Values

  /** `s` without the occurrences of `x`, order kept. */
  function Without(s: seq<real>, x: real): seq<real>
  {
    if |s| == 0 then []
    else
      Without(s[..|s| - 1], x) + (if s[|s| - 1] == x then [] else [s[|s| - 1]])
  }

  /**
   * The values forEach passes to its callback: every value when the no-data
   * value is falsy (0, null, undefined, NaN), else the values `!==` it.
   */
  function Kept(nums: seq<real>, noData: Val): seq<real>
  {
    if Truthy(noData) then Without(nums, noData.n) else nums
  }

  /** The values the external reducers consider: those not `===` the no-data value. */
  function Valid(nums: seq<real>, noData: Val): seq<real>
  {
    if noData.Num? then Without(nums, noData.n) else nums
  }

  lemma {:induction false} WithoutMembers(s: seq<real>, x: real)
    ensures forall y :: y in Without(s, x) <==> y in s && y != x
  {
    if |s| > 0 {
      WithoutMembers(s[..|s| - 1], x);
      assert s == s[..|s| - 1] + [s[|s| - 1]];
    }
  }

  /** forEach passes every value when the no-data value is falsy, else exactly the values `!==` it. */
  lemma KeptMembers(nums: seq<real>, noData: Val)
    ensures !Truthy(noData) ==> Kept(nums, noData) == nums
    ensures forall y :: y in Kept(nums, noData) <==> y in nums && (!Truthy(noData) || y != noData.n)
  {
    if Truthy(noData) {
      WithoutMembers(nums, noData.n);
    }
  }

  /** The external reducers consider exactly the values not `===` the no-data value. */
  lemma ValidMembers(nums: seq<real>, noData: Val)
    ensures forall y :: y in Valid(nums, noData) <==> y in nums && !StrictEq(Num(y), noData)
  {
    if noData.Num? {
      WithoutMembers(nums, noData.n);
    }
  }

  function Sum(s: seq<real>): real
  {
    if |s| == 0 then 0.0 else Sum(s[..|s| - 1]) + s[|s| - 1]
  }

  lemma SumSnoc(s: seq<real>, x: real)
    ensures Sum(s + [x]) == Sum(s) + x
  {
    assert (s + [x])[..|s|] == s;
  }

  lemma WithoutSnoc(s: seq<real>, y: real, x: real)
    ensures Without(s + [y], x) == Without(s, x) + (if y == x then [] else [y])
  {
    assert (s + [y])[..|s|] == s;
  }

  function MaxOf(s: seq<real>): (m: real)
    requires |s| > 0
    ensures m in s && forall i :: 0 <= i < |s| ==> s[i] <= m
  {
    if |s| == 1 then s[0]
    else
      var m := MaxOf(s[1..]);
      if s[0] > m then s[0] else m
  }

  function MinOf(s: seq<real>): (m: real)
    requires |s| > 0
    ensures m in s && forall i :: 0 <= i < |s| ==> m <= s[i]
  {
    if |s| == 1 then s[0]
    else
      var m := MinOf(s[1..]);
      if s[0] < m then s[0] else m
  }

  /** What `mean` (lines 42-50) returns: out_no_data when nothing is kept, else the kept values' average. */
  function MeanOf(nums: seq<real>, inNoData: Val, outNoData: Val): Val
  {
    var k := Kept(nums, inNoData);
    if |k| == 0 then outNoData else Num(Sum(k) / |k| as real)
  }

  /** `mean`: a running sum and count over the values forEach keeps. */
  method Mean(nums: seq<real>, inNoData: Val, outNoData: Val) returns (r: Val)
    ensures r == MeanOf(nums, inNoData, outNoData)
  {
    var runningSum := 0.0;
    var count := 0;
    if Truthy(inNoData) {
      for i := 0 to |nums|
        invariant runningSum == Sum(Without(nums[..i], inNoData.n))
        invariant count == |Without(nums[..i], inNoData.n)|
      {
        var n := nums[i];
        assert nums[..i + 1] == nums[..i] + [n];
        WithoutSnoc(nums[..i], n, inNoData.n);
        ghost var w := Without(nums[..i], inNoData.n);
        if n == inNoData.n {
          assert w + [] == w;
        } else {
          SumSnoc(w, n);
          count := count + 1;
          runningSum := runningSum + n;
        }
      }
    } else {
      for i := 0 to |nums|
        invariant runningSum == Sum(nums[..i])
        invariant count == i
      {
        assert nums[..i + 1] == nums[..i] + [nums[i]];
        SumSnoc(nums[..i], nums[i]);
        count := count + 1;
        runningSum := runningSum + nums[i];
      }
    }
    assert nums[..|nums|] == nums;
    r := if count == 0 then outNoData else Num(runningSum / count as real);
  }

  /** `n * x` as a repeated sum, which keeps the bound proofs linear. */
  function Scale(n: nat, x: real): real
  {
    if n == 0 then 0.0 else Scale(n - 1, x) + x
  }

  lemma {:induction false} ScaleIsProduct(n: nat, x: real)
    ensures Scale(n, x) == n as real * x
  {
    if n > 0 {
      ScaleIsProduct(n - 1, x);
    }
  }

  lemma {:induction false} SumBounds(s: seq<real>, lo: real, hi: real)
    requires forall i :: 0 <= i < |s| ==> lo <= s[i] <= hi
    ensures Scale(|s|, lo) <= Sum(s) <= Scale(|s|, hi)
  {
    if |s| > 0 {
      SumBounds(s[..|s| - 1], lo, hi);
    }
  }

  lemma ScaleBetween(sum: real, n: nat, lo: real, hi: real)
    requires n > 0 && Scale(n, lo) <= sum <= Scale(n, hi)
    ensures lo <= sum / n as real <= hi
  {
    ScaleIsProduct(n, lo);
    ScaleIsProduct(n, hi);
    var m := n as real;
    assert m * lo <= sum <= m * hi;
    DivBetween(sum, m, lo, hi);
  }

  lemma DivBetween(sum: real, n: real, lo: real, hi: real)
    requires n > 0.0 && n * lo <= sum <= n * hi
    ensures lo <= sum / n <= hi
  {
  }

  lemma AverageBetween(k: seq<real>)
    requires |k| > 0
    ensures MinOf(k) <= Sum(k) / |k| as real <= MaxOf(k)
  {
    var lo, hi := MinOf(k), MaxOf(k);
    SumBounds(k, lo, hi);
    ScaleBetween(Sum(k), |k|, lo, hi);
  }

  /**
   * mean yields out_no_data exactly when no value survives forEach's filter;
   * otherwise the kept values' sum over their count, which lies between the
   * smallest and the largest kept value.
   */
  lemma MeanMeaning(nums: seq<real>, inNoData: Val, outNoData: Val)
    ensures var k := Kept(nums, inNoData);
      |k| == 0 ==> MeanOf(nums, inNoData, outNoData) == outNoData
    ensures var k := Kept(nums, inNoData); var m := MeanOf(nums, inNoData, outNoData);
      |k| > 0 ==> m.Num? && m.n == Sum(k) / |k| as real && MinOf(k) <= m.n <= MaxOf(k)
  {
    var k := Kept(nums, inNoData);
    if |k| > 0 {
      AverageBetween(k);
    }
  }

  /** A single kept value is its own mean. */
  lemma MeanOfOne(v: real, inNoData: Val, outNoData: Val)
    requires !StrictEq(Num(v), inNoData)
    ensures MeanOf([v], inNoData, outNoData) == Num(v)
  {
    if Truthy(inNoData) {
      assert [v][..0] == [];
      assert Without([], inNoData.n) == [];
      assert Without([v], inNoData.n) == [v];
    }
    assert Kept([v], inNoData) == [v];
    assert [v][..0] == [];
    assert Sum([v]) == v;
  }

  /** A falsy no-data value filters nothing: with in_no_data 0, zeros are averaged in. */
  lemma MeanKeepsZeroNoData()
    ensures MeanOf([0.0, 2.0], Num(0.0), Null) == Num(1.0)
  {
    assert [0.0, 2.0][..1] == [0.0];
    assert [0.0][..0] == [];
    assert Sum([0.0, 2.0]) == 2.0;
  }

  predicate SortedAsc(s: seq<real>)
  {
    forall i, j :: 0 <= i < j < |s| ==> s[i] <= s[j]
  }

  /** `s` with `x` inserted before the first element not smaller than it. */
  function InsertAsc(x: real, s: seq<real>): (r: seq<real>)
    ensures |r| == |s| + 1
  {
    if |s| == 0 then [x]
    else if x <= s[0] then [x] + s
    else [s[0]] + InsertAsc(x, s[1..])
  }

  /** Inserting adds exactly one occurrence of `x`. */
  lemma {:induction false} InsertAscPermutes(x: real, s: seq<real>)
    ensures multiset(InsertAsc(x, s)) == multiset(s) + multiset{x}
  {
    if |s| > 0 && x > s[0] {
      InsertAscPermutes(x, s[1..]);
      assert s == [s[0]] + s[1..];
      assert InsertAsc(x, s) == [s[0]] + InsertAsc(x, s[1..]);
    }
  }

  /** The inserted list starts with the smaller of `x` and the old first element. */
  lemma InsertAscHead(x: real, s: seq<real>)
    ensures InsertAsc(x, s)[0] == (if |s| == 0 || x <= s[0] then x else s[0])
  {
  }

  /** Inserting into an ascending list keeps it ascending. */
  lemma {:induction false} InsertAscSorted(x: real, s: seq<real>)
    requires SortedAsc(s)
    ensures SortedAsc(InsertAsc(x, s))
  {
    var r := InsertAsc(x, s);
    if |s| > 0 && x <= s[0] {
      assert r == [x] + s;
      forall i, j | 0 <= i < j < |r| ensures r[i] <= r[j] {
        if i == 0 {
          assert s[0] <= s[j - 1];
        } else {
          assert r[i] == s[i - 1] && r[j] == s[j - 1];
        }
      }
    } else if |s| > 0 {
      var t := InsertAsc(x, s[1..]);
      assert SortedAsc(s[1..]);
      InsertAscSorted(x, s[1..]);
      InsertAscHead(x, s[1..]);
      assert r == [s[0]] + t;
      assert s[0] <= t[0] by {
        if 1 < |s| {
          assert s[0] <= s[1];
        }
      }
      forall i, j | 0 <= i < j < |r| ensures r[i] <= r[j] {
        if i == 0 {
          assert t[0] <= t[j - 1];
        } else {
          assert r[i] == t[i - 1] && r[j] == t[j - 1];
        }
      }
    }
  }

  /** Ascending order by insertion; stands in for the numeric sorts of the external libraries and of Object keys. */
  function SortAsc(s: seq<real>): (r: seq<real>)
    ensures |r| == |s|
  {
    if |s| == 0 then []
    else InsertAsc(s[|s| - 1], SortAsc(s[..|s| - 1]))
  }

  /** The sort is ascending and a permutation of its input. */
  lemma {:induction false} SortAscSorted(s: seq<real>)
    ensures SortedAsc(SortAsc(s)) && multiset(SortAsc(s)) == multiset(s)
  {
    if |s| > 0 {
      SortAscSorted(s[..|s| - 1]);
      InsertAscSorted(s[|s| - 1], SortAsc(s[..|s| - 1]));
      InsertAscPermutes(s[|s| - 1], SortAsc(s[..|s| - 1]));
      assert s == s[..|s| - 1] + [s[|s| - 1]];
    }
  }

  function MedianOf(s: seq<real>): real
    requires |s| > 0
  {
    var t := SortAsc(s);
    var n := |t|;
    if n % 2 == 1 then t[n / 2] else (t[n / 2 - 1] + t[n / 2]) / 2.0
  }

  function ExtMax(nums: seq<real>, noData: Val): Option<real>
  {
    var v := Valid(nums, noData);
    if |v| == 0 then None else Some(MaxOf(v))
  }

  function ExtMin(nums: seq<real>, noData: Val): Option<real>
  {
    var v := Valid(nums, noData);
    if |v| == 0 then None else Some(MinOf(v))
  }

  function ExtMedian(nums: seq<real>, noData: Val): Option<real>
  {
    var v := Valid(nums, noData);
    if |v| == 0 then None else Some(MedianOf(v))
  }

  /** The `max` wrapper (lines 37-40): the largest valid value, or out_no_data when there is none. */
  function MaxValue(nums: seq<real>, inNoData: Val, outNoData: Val): (r: Val)
    ensures |Valid(nums, inNoData)| == 0 ==> r == outNoData
    ensures |Valid(nums, inNoData)| > 0 ==>
      r.Num? && r.n in nums && !StrictEq(r, inNoData) &&
      forall x :: x in nums && !StrictEq(Num(x), inNoData) ==> x <= r.n
  {
    ValidMembers(nums, inNoData);
    match ExtMax(nums, inNoData)
    case None => outNoData
    case Some(m) => Num(m)
  }

  /** The `min` wrapper (lines 52-55): the smallest valid value, or out_no_data when there is none. */
  function MinValue(nums: seq<real>, inNoData: Val, outNoData: Val): (r: Val)
    ensures |Valid(nums, inNoData)| == 0 ==> r == outNoData
    ensures |Valid(nums, inNoData)| > 0 ==>
      r.Num? && r.n in nums && !StrictEq(r, inNoData) &&
      forall x :: x in nums && !StrictEq(Num(x), inNoData) ==> r.n <= x
  {
    ValidMembers(nums, inNoData);
    match ExtMin(nums, inNoData)
    case None => outNoData
    case Some(m) => Num(m)
  }

  /** The `median` wrapper (lines 32-35): a number between the valid extremes, or out_no_data when there is none. */
  function MedianValue(nums: seq<real>, inNoData: Val, outNoData: Val): (r: Val)
    ensures |Valid(nums, inNoData)| == 0 ==> r == outNoData
    ensures var v := Valid(nums, inNoData);
      |v| > 0 ==> r.Num? && MinOf(v) <= r.n <= MaxOf(v)
  {
    match ExtMedian(nums, inNoData)
    case None => outNoData
    case Some(m) =>
      var v := Valid(nums, inNoData);
      MedianBetween(v);
      Num(m)
  }

  lemma MedianBetween(s: seq<real>)
    requires |s| > 0
    ensures MinOf(s) <= MedianOf(s) <= MaxOf(s)
  {
    var t := SortAsc(s);
    var n := |t|;
    var h := n / 2;
    HalfIndex(n);
    SortAscPermutes(s);
    Between(s, t, h);
    if n % 2 == 1 {
      assert MedianOf(s) == t[h];
    } else {
      Between(s, t, h - 1);
      HalfBetween(t[h - 1], t[h], MinOf(s), MaxOf(s));
      assert MedianOf(s) == (t[h - 1] + t[h]) / 2.0;
    }
  }

  lemma SortAscPermutes(s: seq<real>)
    ensures multiset(SortAsc(s)) == multiset(s)
  {
    SortAscSorted(s);
  }

  lemma HalfIndex(n: nat)
    requires n > 0
    ensures n / 2 < n && (n % 2 == 0 ==> 1 <= n / 2)
  {
    assert n == 2 * (n / 2) + n % 2;
  }

  lemma HalfBetween(a: real, b: real, lo: real, hi: real)
    requires lo <= a <= hi && lo <= b <= hi
    ensures lo <= (a + b) / 2.0 <= hi
  {
  }

  /** Every element of a permutation of `s` lies between the extremes of `s`. */
  lemma Between(s: seq<real>, t: seq<real>, i: int)
    requires |s| > 0 && multiset(t) == multiset(s) && 0 <= i < |t|
    ensures MinOf(s) <= t[i] <= MaxOf(s)
  {
    assert t[i] in multiset(t);
    assert t[i] in s;
    var j :| 0 <= j < |s| && s[j] == t[i];
  }

  /** A single valid value is returned unchanged by max, min and median. */
  lemma ExtremaOfOne(v: real, inNoData: Val, outNoData: Val)
    requires !StrictEq(Num(v), inNoData)
    ensures MaxValue([v], inNoData, outNoData) == Num(v)
    ensures MinValue([v], inNoData, outNoData) == Num(v)
    ensures MedianValue([v], inNoData, outNoData) == Num(v)
  {
    ValidOfOne(v, inNoData);
    assert MinOf([v]) == v && MaxOf([v]) == v;
  }

  lemma ValidOfOne(v: real, noData: Val)
    requires !StrictEq(Num(v), noData)
    ensures Valid([v], noData) == [v]
  {
    if noData.Num? {
      assert [v][..0] == [];
      assert Without([], noData.n) == [];
    }
  }

  predicate StrictlyDecreasing(s: seq<int>)
  {
    forall i, j :: 0 <= i < j < |s| ==> s[i] > s[j]
  }

  function InsertDesc(x: int, s: seq<int>): (r: seq<int>)
    requires StrictlyDecreasing(s)
    ensures StrictlyDecreasing(r)
    ensures forall y :: y in r <==> y == x || y in s
  {
    if |s| == 0 then [x]
    else if x == s[0] then s
    else if x > s[0] then [x] + s
    else
      var t := InsertDesc(x, s[1..]);
      assert forall j :: 0 <= j < |t| ==> t[j] < s[0] by {
        forall j | 0 <= j < |t| ensures t[j] < s[0] {
          assert t[j] in t;
          if t[j] != x {
            var k :| 0 <= k < |s[1..]| && s[1..][k] == t[j];
            assert s[k + 1] == t[j];
          }
        }
      }
      [s[0]] + t
  }

  /** `uniq` (line 14): the distinct values, sorted in descending order. */
  function Uniq(s: seq<int>): (r: seq<int>)
    ensures StrictlyDecreasing(r)
    ensures forall y :: y in r <==> y in s
  {
    if |s| == 0 then []
    else
      assert s == s[..|s| - 1] + [s[|s| - 1]];
      InsertDesc(s[|s| - 1], Uniq(s[..|s| - 1]))
  }

  /** `range` (line 16): the indices 0 .. ct-1 in order. */
  function Range(ct: nat): (r: seq<int>)
    ensures |r| == ct && forall i :: 0 <= i < ct ==> r[i] == i
  {
    seq(ct, i => i)
  }

  /** `Array.prototype.indexOf`: the first position of `x`, or -1. */
  function IndexOf(s: seq<int>, x: int): (r: int)
    ensures -1 <= r < |s|
    ensures r == -1 <==> x !in s
    ensures 0 <= r ==> s[r] == x && x !in s[..r]
  {
    if |s| == 0 then -1
    else if s[0] == x then 0
    else
      var k := IndexOf(s[1..], x);
      assert s == [s[0]] + s[1..];
      if k == -1 then -1
      else
        assert s[..k + 1] == [s[0]] + s[1..][..k];
        k + 1
  }
}
