/**
 * `mode` (geowarp.js lines 57-82): the most frequent values of a list.
 *
 * The source tallies the values in a plain object keyed by the value, reads
 * the tallies back with Object.values, sorts them by count (descending, a
 * stable sort) to find the largest count, and keeps the values whose count
 * equals it. Object.values lists the keys that are array indices (integers
 * from 0 to 2^32 - 2) in ascending order first and the remaining keys in the
 * order they were first inserted; since the sort is stable and the filter keeps
 * equal counts only, the modes come out in that key order.
 */
module Modes {
  import opened Values
  import opened Reducers

  /**
   * NoValues: the empty input, for which mode returns undefined.
   * NoCounts: every value was filtered out, so the sorted tallies have no
   * first element and reading its count throws a TypeError (line 79).
   * Modes: the list of most frequent values.
   */
  datatype ModeResult = NoValues | NoCounts | Modes(values: seq<real>)

  /** How often `x` occurs in `s`. */
  function Count(s: seq<real>, x: real): nat
  {
    multiset(s)[x]
  }

  /** The distinct values of `s` in order of first occurrence: the object's insertion order. */
  function Distinct(s: seq<real>): seq<real>
  {
    if |s| == 0 then []
    else
      var d := Distinct(s[..|s| - 1]);
      if s[|s| - 1] in d then d else d + [s[|s| - 1]]
  }

  /** The insertion order lists every tallied value exactly once. */
  lemma {:induction false} DistinctMembers(s: seq<real>)
    ensures NoDup(Distinct(s))
    ensures forall x :: x in Distinct(s) <==> x in s
  {
    if |s| > 0 {
      DistinctMembers(s[..|s| - 1]);
      assert s == s[..|s| - 1] + [s[|s| - 1]];
    }
  }

  predicate NoDup(s: seq<real>)
  {
    forall i, j :: 0 <= i < j < |s| ==> s[i] != s[j]
  }

  /** A key that JavaScript treats as an array index: an integer from 0 to 2^32 - 2. */
  predicate IsIndexKey(x: real)
  {
    x == x.Floor as real && 0.0 <= x <= 4294967294.0
  }

  function IndexKeys(keys: seq<real>): (r: seq<real>)
    ensures forall x :: x in r <==> x in keys && IsIndexKey(x)
  {
    if |keys| == 0 then []
    else
      assert keys == keys[..|keys| - 1] + [keys[|keys| - 1]];
      var x := keys[|keys| - 1];
      IndexKeys(keys[..|keys| - 1]) + (if IsIndexKey(x) then [x] else [])
  }

  function OtherKeys(keys: seq<real>): (r: seq<real>)
    ensures forall x :: x in r <==> x in keys && !IsIndexKey(x)
  {
    if |keys| == 0 then []
    else
      assert keys == keys[..|keys| - 1] + [keys[|keys| - 1]];
      var x := keys[|keys| - 1];
      OtherKeys(keys[..|keys| - 1]) + (if IsIndexKey(x) then [] else [x])
  }

  /** The order in which Object.values lists the entries of an object whose keys were inserted as `keys`. */
  function KeyOrder(keys: seq<real>): (r: seq<real>)
    ensures forall x :: x in r <==> x in keys
  {
    var idx := IndexKeys(keys);
    var sorted := SortAsc(idx);
    SortAscSorted(idx);
    assert forall x :: x in sorted <==> x in idx by {
      forall x ensures x in sorted <==> x in idx {
        assert x in sorted <==> x in multiset(sorted);
        assert x in idx <==> x in multiset(idx);
      }
    }
    sorted + OtherKeys(keys)
  }

  /** The largest count in `k` of any value of `items` (0 when there is none). */
  function MaxCountIn(k: seq<real>, items: seq<real>): nat
  {
    if |items| == 0 then 0
    else
      var m := MaxCountIn(k, items[..|items| - 1]);
      var c := Count(k, items[|items| - 1]);
      if c > m then c else m
  }

  /** The values of `items` whose count in `k` is `m`, order kept. */
  function WithCount(k: seq<real>, items: seq<real>, m: nat): (r: seq<real>)
    ensures forall x :: x in r <==> x in items && Count(k, x) == m
  {
    if |items| == 0 then []
    else
      assert items == items[..|items| - 1] + [items[|items| - 1]];
      var x := items[|items| - 1];
      WithCount(k, items[..|items| - 1], m) + (if Count(k, x) == m then [x] else [])
  }

  /** What `mode(nums, no_data)` returns. */
  function ModeSpec(nums: seq<real>, noData: Val): ModeResult
  {
    if |nums| == 0 then NoValues
    else
      var k := Kept(nums, noData);
      var items := KeyOrder(Distinct(k));
      if |items| == 0 then NoCounts
      else Modes(WithCount(k, items, MaxCountIn(k, items)))
  }

  lemma KeptSnoc(s: seq<real>, y: real, noData: Val)
    ensures Kept(s + [y], noData) ==
      Kept(s, noData) + (if !Truthy(noData) || y != noData.n then [y] else [])
  {
    if Truthy(noData) {
      WithoutSnoc(s, y, noData.n);
    }
  }

  /** `mode`: tallies the values, then takes the largest tally and keeps the values that reach it. */
  method Mode(nums: seq<real>, noData: Val) returns (r: ModeResult)
    ensures r == ModeSpec(nums, noData)
  {
    if |nums| == 0 {
      return NoValues;
    }
    var counts, keys := Tally(nums, noData);
    ghost var k := Kept(nums, noData);
    var items := KeyOrder(keys);
    if |items| == 0 {
      return NoCounts;
    }
    var best := LargestCount(items, counts, k);
    var modes := ReachingCount(items, counts, k, best);
    r := Modes(modes);
  }

  /**
   * The counting loops (lines 63-77): `counts` maps each kept value to its
   * number of occurrences, `keys` lists the values in order of first insertion.
   */
  method Tally(nums: seq<real>, noData: Val) returns (counts: map<real, nat>, keys: seq<real>)
    ensures keys == Distinct(Kept(nums, noData))
    ensures forall x :: x in counts <==> x in keys
    ensures forall x :: x in counts ==> counts[x] == Count(Kept(nums, noData), x)
  {
    counts := map[];
    keys := [];
    ghost var k: seq<real> := [];
    for i := 0 to |nums|
      invariant k == Kept(nums[..i], noData)
      invariant keys == Distinct(k)
      invariant forall x :: x in counts <==> x in keys
      invariant forall x :: x in counts ==> counts[x] == Count(k, x)
    {
      counts, keys, k := TallyAt(nums, i, noData, counts, keys, k);
    }
    assert nums[..|nums|] == nums;
  }

  /** One pass of the counting loop body (lines 65-68 or 73-75): value `i` is counted unless it is filtered out. */
  method TallyAt(nums: seq<real>, i: int, noData: Val, counts: map<real, nat>, keys: seq<real>, ghost k: seq<real>)
    returns (counts': map<real, nat>, keys': seq<real>, ghost k': seq<real>)
    requires 0 <= i < |nums| && k == Kept(nums[..i], noData)
    requires keys == Distinct(k)
    requires forall x :: x in counts <==> x in keys
    requires forall x :: x in counts ==> counts[x] == Count(k, x)
    ensures k' == Kept(nums[..i + 1], noData)
    ensures keys' == Distinct(k')
    ensures forall x :: x in counts' <==> x in keys'
    ensures forall x :: x in counts' ==> counts'[x] == Count(k', x)
  {
    var n := nums[i];
    assert nums[..i + 1] == nums[..i] + [n];
    KeptSnoc(nums[..i], n, noData);
    if !Truthy(noData) || n != noData.n {
      counts', keys' := Bump(counts, keys, k, n);
      k' := k + [n];
    } else {
      counts', keys', k' := counts, keys, k;
      assert Kept(nums[..i + 1], noData) == k + [];
    }
  }

  /** One tally step: `counts[n].count++` when `n` is known, else a new entry `{ n, count: 1 }`. */
  method Bump(counts: map<real, nat>, keys: seq<real>, ghost k: seq<real>, n: real)
    returns (counts': map<real, nat>, keys': seq<real>)
    requires keys == Distinct(k)
    requires forall x :: x in counts <==> x in keys
    requires forall x :: x in counts ==> counts[x] == Count(k, x)
    ensures keys' == Distinct(k + [n])
    ensures forall x :: x in counts' <==> x in keys'
    ensures forall x :: x in counts' ==> counts'[x] == Count(k + [n], x)
  {
    TallyStep(k, n);
    if n in counts {
      counts' := counts[n := counts[n] + 1];
      keys' := keys;
    } else {
      DistinctMembers(k);
      assert Count(k, n) == 0;
      counts' := counts[n := 1];
      keys' := keys + [n];
    }
  }

  lemma TallyStep(k: seq<real>, n: real)
    ensures Distinct(k + [n]) == if n in Distinct(k) then Distinct(k) else Distinct(k) + [n]
    ensures forall x :: Count(k + [n], x) == Count(k, x) + (if x == n then 1 else 0)
  {
    assert (k + [n])[..|k|] == k;
    assert multiset(k + [n]) == multiset(k) + multiset{n};
  }

  /** The first count after sorting the tallies by count, descending (line 79): the largest one. */
  method LargestCount(items: seq<real>, counts: map<real, nat>, ghost k: seq<real>) returns (best: nat)
    requires forall i :: 0 <= i < |items| ==> items[i] in counts && counts[items[i]] == Count(k, items[i])
    ensures best == MaxCountIn(k, items)
  {
    best := 0;
    for j := 0 to |items|
      invariant best == MaxCountIn(k, items[..j])
    {
      assert items[..j + 1][..j] == items[..j];
      if counts[items[j]] > best {
        best := counts[items[j]];
      }
    }
    assert items[..|items|] == items;
  }

  /** The filter and map of line 80: the values whose tally equals `best`, in tally order. */
  method ReachingCount(items: seq<real>, counts: map<real, nat>, ghost k: seq<real>, best: nat)
    returns (modes: seq<real>)
    requires forall i :: 0 <= i < |items| ==> items[i] in counts && counts[items[i]] == Count(k, items[i])
    ensures modes == WithCount(k, items, best)
  {
    modes := [];
    for j := 0 to |items|
      invariant modes == WithCount(k, items[..j], best)
    {
      assert items[..j + 1][..j] == items[..j];
      if counts[items[j]] == best {
        modes := modes + [items[j]];
      }
    }
    assert items[..|items|] == items;
  }

  lemma {:induction false} MaxCountInBounds(k: seq<real>, items: seq<real>)
    ensures forall i :: 0 <= i < |items| ==> Count(k, items[i]) <= MaxCountIn(k, items)
    ensures |items| > 0 ==> exists i :: 0 <= i < |items| && Count(k, items[i]) == MaxCountIn(k, items)
  {
    if |items| > 0 {
      var init := items[..|items| - 1];
      MaxCountInBounds(k, init);
      assert forall i :: 0 <= i < |init| ==> items[i] == init[i];
      if |init| > 0 && Count(k, items[|items| - 1]) <= MaxCountIn(k, init) {
        var i :| 0 <= i < |init| && Count(k, init[i]) == MaxCountIn(k, init);
        assert items[i] == init[i];
      }
    }
  }

  /** The values of `items` whose count is the largest are exactly those no other value of `items` outnumbers. */
  lemma MostFrequentOf(k: seq<real>, items: seq<real>)
    requires |items| > 0
    ensures |WithCount(k, items, MaxCountIn(k, items))| > 0
    ensures forall x :: x in WithCount(k, items, MaxCountIn(k, items)) <==>
      (x in items && forall y :: y in items ==> Count(k, y) <= Count(k, x))
  {
    var m := MaxCountIn(k, items);
    MaxCountInBounds(k, items);
    var i :| 0 <= i < |items| && Count(k, items[i]) == m;
    assert items[i] in WithCount(k, items, m);
    forall x
      ensures x in WithCount(k, items, m) <==>
        (x in items && forall y :: y in items ==> Count(k, y) <= Count(k, x))
    {
      if x in items && forall y :: y in items ==> Count(k, y) <= Count(k, x) {
        assert Count(k, items[i]) <= Count(k, x);
      }
      if x in WithCount(k, items, m) {
        forall y | y in items ensures Count(k, y) <= Count(k, x) {
          var j :| 0 <= j < |items| && items[j] == y;
        }
      }
    }
  }

  /**
   * When values survive the filter, the modes are exactly the kept values
   * whose frequency is the largest frequency among the kept values; there is
   * at least one. When none survive, the tally is empty.
   */
  lemma ModesAreMostFrequent(nums: seq<real>, noData: Val)
    requires |nums| > 0
    ensures var k := Kept(nums, noData);
      ModeSpec(nums, noData).NoCounts? <==> |k| == 0
    ensures var k := Kept(nums, noData); var r := ModeSpec(nums, noData);
      r.Modes? ==> (|r.values| > 0 &&
        forall x :: x in r.values <==> (x in k && forall y :: y in k ==> Count(k, y) <= Count(k, x)))
  {
    var k := Kept(nums, noData);
    var items := KeyOrder(Distinct(k));
    DistinctMembers(k);
    assert forall x :: x in items <==> x in k;
    if |k| > 0 {
      assert k[0] in items;
    }
    if |items| > 0 {
      MostFrequentOf(k, items);
      var r := WithCount(k, items, MaxCountIn(k, items));
      forall x
        ensures x in r <==> (x in k && forall y :: y in k ==> Count(k, y) <= Count(k, x))
      {
        assert (forall y :: y in k ==> Count(k, y) <= Count(k, x)) <==>
          (forall y :: y in items ==> Count(k, y) <= Count(k, x));
      }
    }
  }

  /** No value is listed twice among the modes. */
  lemma {:induction false} WithCountNoDup(k: seq<real>, items: seq<real>, m: nat)
    requires NoDup(items)
    ensures NoDup(WithCount(k, items, m))
  {
    if |items| > 0 {
      var init := items[..|items| - 1];
      var x := items[|items| - 1];
      assert NoDup(init);
      WithCountNoDup(k, init, m);
      assert x !in init;
    }
  }

  lemma {:induction false} NoDupAtMostOnce(s: seq<real>)
    requires NoDup(s)
    ensures forall x :: Count(s, x) <= 1
  {
    if |s| > 0 {
      var init := s[..|s| - 1];
      assert s == init + [s[|s| - 1]];
      assert NoDup(init);
      NoDupAtMostOnce(init);
      var last := s[|s| - 1];
      assert last !in init;
      assert multiset(s) == multiset(init) + multiset{last};
      forall x ensures Count(s, x) <= 1 {
        assert Count(s, x) == Count(init, x) + (if x == last then 1 else 0);
      }
    }
  }

  lemma RepeatCounted(t: seq<real>, i: int, j: int)
    requires 0 <= i < j < |t| && t[i] == t[j]
    ensures Count(t, t[i]) >= 2
  {
    assert t == t[..j] + [t[j]] + t[j + 1..];
    assert multiset(t) == multiset(t[..j]) + multiset{t[j]} + multiset(t[j + 1..]);
    assert t[i] in multiset(t[..j]);
  }

  /** A rearrangement of a list without repetitions has none. */
  lemma PermutationNoDup(s: seq<real>, t: seq<real>)
    requires NoDup(s) && multiset(t) == multiset(s)
    ensures NoDup(t)
  {
    NoDupAtMostOnce(s);
    forall i, j | 0 <= i < j < |t| ensures t[i] != t[j] {
      assert Count(s, t[i]) <= 1;
      if t[i] == t[j] {
        RepeatCounted(t, i, j);
        assert false;
      }
    }
  }

  lemma {:induction false} FilteredKeysNoDup(keys: seq<real>)
    requires NoDup(keys)
    ensures NoDup(IndexKeys(keys)) && NoDup(OtherKeys(keys))
  {
    if |keys| > 0 {
      var init := keys[..|keys| - 1];
      assert NoDup(init);
      FilteredKeysNoDup(init);
      assert keys[|keys| - 1] !in init;
    }
  }

  /** Object.values lists each key once. */
  lemma KeyOrderNoDup(keys: seq<real>)
    requires NoDup(keys)
    ensures NoDup(KeyOrder(keys))
  {
    FilteredKeysNoDup(keys);
    var idx := IndexKeys(keys);
    var sorted := SortAsc(idx);
    SortAscSorted(idx);
    PermutationNoDup(idx, sorted);
    var others := OtherKeys(keys);
    forall i, j | 0 <= i < |sorted| && 0 <= j < |others| ensures sorted[i] != others[j] {
      assert sorted[i] in multiset(sorted);
      assert sorted[i] in idx;
      assert others[j] in others;
    }
  }

  /** mode lists each of its values once. */
  lemma ModesDistinct(nums: seq<real>, noData: Val)
    ensures var r := ModeSpec(nums, noData); r.Modes? ==> NoDup(r.values)
  {
    if |nums| > 0 {
      var k := Kept(nums, noData);
      DistinctMembers(k);
      var items := KeyOrder(Distinct(k));
      KeyOrderNoDup(Distinct(k));
      WithCountNoDup(k, items, MaxCountIn(k, items));
    }
  }

  /** The area path calls `mode(values)` without a no-data value, so every sampled value is counted. */
  lemma AreaModeCountsEverything(nums: seq<real>)
    ensures Kept(nums, Undef) == nums
  {
  }

  lemma SortThree()
    ensures SortAsc([3.0, 1.0, 2.0]) == [1.0, 2.0, 3.0]
  {
    assert [3.0, 1.0, 2.0][..2] == [3.0, 1.0];
    assert [3.0, 1.0][..1] == [3.0];
    assert [3.0][..0] == [];
    assert SortAsc([3.0]) == [3.0];
    assert SortAsc([3.0, 1.0]) == [1.0, 3.0];
    assert [1.0, 3.0][1..] == [3.0];
    assert InsertAsc(2.0, [3.0]) == [2.0, 3.0];
  }

  lemma KeysThree()
    ensures KeyOrder(Distinct([3.0, 1.0, 2.0])) == [1.0, 2.0, 3.0]
  {
    var s := [3.0, 1.0, 2.0];
    assert s[..2] == [3.0, 1.0] && s[..2][..1] == [3.0] && [3.0][..0] == [];
    assert Distinct(s) == s;
    assert IndexKeys(s) == s;
    assert OtherKeys(s) == [];
    SortThree();
  }

  lemma TalliesThree()
    ensures MaxCountIn([3.0, 1.0, 2.0], [1.0, 2.0, 3.0]) == 1
    ensures WithCount([3.0, 1.0, 2.0], [1.0, 2.0, 3.0], 1) == [1.0, 2.0, 3.0]
  {
    var s := [3.0, 1.0, 2.0];
    var items := [1.0, 2.0, 3.0];
    assert multiset(s) == multiset{1.0, 2.0, 3.0};
    assert Count(s, 1.0) == 1 && Count(s, 2.0) == 1 && Count(s, 3.0) == 1;
    assert items[..2] == [1.0, 2.0] && items[..2][..1] == [1.0] && [1.0][..0] == [];
  }

  /** Integer tallies come out in ascending key order, whatever the order of first appearance. */
  lemma ModeTieIndexOrder()
    ensures ModeSpec([3.0, 1.0, 2.0], Undef) == Modes([1.0, 2.0, 3.0])
  {
    var k := Kept([3.0, 1.0, 2.0], Undef);
    assert k == [3.0, 1.0, 2.0];
    KeysThree();
    var items := KeyOrder(Distinct(k));
    assert items == [1.0, 2.0, 3.0];
    TalliesThree();
    assert WithCount(k, items, MaxCountIn(k, items)) == [1.0, 2.0, 3.0];
  }

  lemma KeysMixed()
    ensures KeyOrder(Distinct([0.5, 2.0])) == [2.0, 0.5]
  {
    var s := [0.5, 2.0];
    assert s[..1] == [0.5] && [0.5][..0] == [];
    assert Distinct(s) == s;
    assert IndexKeys(s) == [2.0];
    assert OtherKeys(s) == [0.5];
    assert SortAsc([2.0]) == [2.0];
    assert KeyOrder(s) == SortAsc(IndexKeys(s)) + OtherKeys(s);
  }

  lemma TalliesMixed()
    ensures MaxCountIn([0.5, 2.0], [2.0, 0.5]) == 1
    ensures WithCount([0.5, 2.0], [2.0, 0.5], 1) == [2.0, 0.5]
  {
    var s := [0.5, 2.0];
    var items := [2.0, 0.5];
    assert multiset(s) == multiset{0.5, 2.0};
    assert Count(s, 2.0) == 1 && Count(s, 0.5) == 1;
    assert items[..1] == [2.0] && [2.0][..0] == [];
  }

  /** Array-index keys come before every other key: a tie between 0.5 and 2 lists 2 first. */
  lemma ModeTieIndexKeysFirst()
    ensures ModeSpec([0.5, 2.0], Undef) == Modes([2.0, 0.5])
  {
    var k := Kept([0.5, 2.0], Undef);
    assert k == [0.5, 2.0];
    KeysMixed();
    var items := KeyOrder(Distinct(k));
    assert items == [2.0, 0.5];
    TalliesMixed();
    assert WithCount(k, items, MaxCountIn(k, items)) == [2.0, 0.5];
  }
}
