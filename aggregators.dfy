/**
 * The numeric aggregate functions of pixeltable/functions/__init__.py:45-95:
 * `sum`, `count` and `mean`. Each is an object updated once per row; a row whose
 * value is missing (Python's None) is skipped. The values are integers, as the
 * functions' registered argument type says.
 *
 * Each class keeps the updates it has seen as ghost state and is proved to hold
 * the fold of that history.
 */
module Aggregators {
  import opened Wrappers

  /** The values present in a sequence of updates, in order. */
  function Present(updates: seq<Option<int>>): (vs: seq<int>)
    ensures |vs| <= |updates|
  {
    if updates == [] then []
    else
      var init := Present(updates[..|updates| - 1]);
      match updates[|updates| - 1]
      case Some(v) => init + [v]
      case None => init
  }

  /** The sum of a sequence of integers. */
  function Total(vs: seq<int>): int
  {
    if vs == [] then 0 else vs[0] + Total(vs[1..])
  }

  /** What `SumAggregator.update` accumulates, one update at a time. */
  function SumOf(updates: seq<Option<int>>): int
  {
    if updates == [] then 0
    else
      var v := updates[|updates| - 1];
      SumOf(updates[..|updates| - 1]) + (if v.Some? then v.value else 0)
  }

  /** What `CountAggregator.update` accumulates, one update at a time. */
  function CountOf(updates: seq<Option<int>>): nat
  {
    if updates == [] then 0
    else CountOf(updates[..|updates| - 1]) + (if updates[|updates| - 1].Some? then 1 else 0)
  }

  predicate NonePresent(updates: seq<Option<int>>)
  {
    forall i :: 0 <= i < |updates| ==> updates[i].None?
  }

  lemma {:induction false} TotalAppend(a: seq<int>, b: seq<int>)
    ensures Total(a + b) == Total(a) + Total(b)
  {
    if a != [] {
      assert (a + b)[1..] == a[1..] + b;
      TotalAppend(a[1..], b);
    } else {
      assert a + b == b;
    }
  }

  /** The running sum is the sum of the values present. */
  lemma {:induction false} SumOfIsTotalOfPresent(updates: seq<Option<int>>)
    ensures SumOf(updates) == Total(Present(updates))
  {
    if updates != [] {
      var init := updates[..|updates| - 1];
      SumOfIsTotalOfPresent(init);
      if updates[|updates| - 1].Some? {
        TotalAppend(Present(init), [updates[|updates| - 1].value]);
      }
    }
  }

  /** The running count is the number of values present. */
  lemma {:induction false} CountOfIsNumberPresent(updates: seq<Option<int>>)
    ensures CountOf(updates) == |Present(updates)|
  {
    if updates != [] {
      CountOfIsNumberPresent(updates[..|updates| - 1]);
    }
  }

  /** The count is zero exactly when no value was present. */
  lemma {:induction false} CountOfZero(updates: seq<Option<int>>)
    ensures CountOf(updates) == 0 <==> NonePresent(updates)
  {
    if updates != [] {
      var init := updates[..|updates| - 1];
      CountOfZero(init);
      if NonePresent(updates) {
        assert NonePresent(init) by {
          forall i | 0 <= i < |init| ensures init[i].None? {
            assert init[i] == updates[i];
          }
        }
      }
    }
  }

  /** Values all within [lo, hi] sum to between lo and hi times their count, so a
      mean lies between the least and the greatest value seen. */
  lemma {:induction false} SumWithinBounds(updates: seq<Option<int>>, lo: int, hi: int)
    requires forall i :: 0 <= i < |updates| && updates[i].Some? ==> lo <= updates[i].value <= hi
    ensures lo * CountOf(updates) <= SumOf(updates) <= hi * CountOf(updates)
  {
    if updates != [] {
      var init := updates[..|updates| - 1];
      assert forall i :: 0 <= i < |init| ==> init[i] == updates[i];
      SumWithinBounds(init, lo, hi);
      var c := CountOf(init);
      var last := updates[|updates| - 1];
      if last.Some? {
        assert lo * (c + 1) == lo * c + lo;
        assert hi * (c + 1) == hi * c + hi;
      }
    }
  }

  /** Folding in two parts: the aggregates of a sequence of updates are those of its
      parts added up, so partial aggregates combine. */
  lemma {:induction false} SumCountAppend(a: seq<Option<int>>, b: seq<Option<int>>)
    ensures SumOf(a + b) == SumOf(a) + SumOf(b)
    ensures CountOf(a + b) == CountOf(a) + CountOf(b)
  {
    if b != [] {
      var init := b[..|b| - 1];
      assert (a + b)[..|a + b| - 1] == a + init;
      SumCountAppend(a, init);
    } else {
      assert a + b == a;
    }
  }

  /** `SumAggregator`: the running sum of the values present. */
  class SumAggregator {
    var sum: int
    ghost var seen: seq<Option<int>>

    ghost predicate Valid()
      reads this
    {
      sum == SumOf(seen)
    }

    constructor ()
      ensures Valid() && seen == [] && sum == 0
    {
      sum := 0;
      seen := [];
    }

    static method MakeAggregator() returns (a: SumAggregator)
      ensures fresh(a) && a.Valid() && a.seen == [] && a.sum == 0
    {
      a := new SumAggregator();
    }

    method Update(val: Option<int>)
      requires Valid()
      modifies this
      ensures Valid() && seen == old(seen) + [val]
      ensures val.None? ==> sum == old(sum)
    {
      if val.Some? {
        sum := sum + val.value;
      }
      seen := seen + [val];
      assert seen[..|seen| - 1] == old(seen);
    }

    method Value() returns (v: int)
      requires Valid()
      ensures v == Total(Present(seen))
    {
      SumOfIsTotalOfPresent(seen);
      v := sum;
    }
  }

  /** `CountAggregator`: the number of values present. */
  class CountAggregator {
    var count: nat
    ghost var seen: seq<Option<int>>

    ghost predicate Valid()
      reads this
    {
      count == CountOf(seen)
    }

    constructor ()
      ensures Valid() && seen == [] && count == 0
    {
      count := 0;
      seen := [];
    }

    static method MakeAggregator() returns (a: CountAggregator)
      ensures fresh(a) && a.Valid() && a.seen == [] && a.count == 0
    {
      a := new CountAggregator();
    }

    method Update(val: Option<int>)
      requires Valid()
      modifies this
      ensures Valid() && seen == old(seen) + [val]
      ensures val.None? ==> count == old(count)
    {
      if val.Some? {
        count := count + 1;
      }
      seen := seen + [val];
      assert seen[..|seen| - 1] == old(seen);
    }

    method Value() returns (v: nat)
      requires Valid()
      ensures v == |Present(seen)|
    {
      CountOfIsNumberPresent(seen);
      v := count;
    }
  }

  /** `MeanAggregator`: a sum and a count, whose quotient is the mean; no mean
      (Python's None) when no value was present. */
  class MeanAggregator {
    var sum: int
    var count: nat
    ghost var seen: seq<Option<int>>

    ghost predicate Valid()
      reads this
    {
      sum == SumOf(seen) && count == CountOf(seen)
    }

    constructor ()
      ensures Valid() && seen == [] && sum == 0 && count == 0
    {
      sum := 0;
      count := 0;
      seen := [];
    }

    static method MakeAggregator() returns (a: MeanAggregator)
      ensures fresh(a) && a.Valid() && a.seen == [] && a.sum == 0 && a.count == 0
    {
      a := new MeanAggregator();
    }

    method Update(val: Option<int>)
      requires Valid()
      modifies this
      ensures Valid() && seen == old(seen) + [val]
      ensures val.None? ==> sum == old(sum) && count == old(count)
    {
      if val.Some? {
        sum := sum + val.value;
        count := count + 1;
      }
      seen := seen + [val];
      assert seen[..|seen| - 1] == old(seen);
    }

    method Value() returns (v: Option<real>)
      requires Valid()
      ensures v.None? <==> NonePresent(seen)
      ensures v.Some? ==> |Present(seen)| > 0 && v.value == Total(Present(seen)) as real / |Present(seen)| as real
    {
      CountOfZero(seen);
      SumOfIsTotalOfPresent(seen);
      CountOfIsNumberPresent(seen);
      if count == 0 {
        return None;
      }
      return Some(sum as real / count as real);
    }
  }

  /** A mean aggregator holds exactly what a sum and a count aggregator fed the
      same updates hold. */
  lemma MeanIsSumOverCount(m: MeanAggregator, s: SumAggregator, c: CountAggregator)
    requires m.Valid() && s.Valid() && c.Valid() && m.seen == s.seen && m.seen == c.seen
    ensures m.sum == s.sum && m.count == c.count
  {
  }
}
