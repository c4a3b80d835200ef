/**
 * The filter records the alerts are built from, the two comparators the
 * alerts sort them with, and the in-place sort itself.
 *
 * `Array.prototype.sort` is a library routine; here it is an insertion sort
 * that reads the comparator `cmp(x, y)` with "greater than zero" meaning
 * "x goes after y". Only properties that hold for every conforming sort are
 * claimed about it: the result is a permutation, and it is ordered under a
 * consistent comparator. Stability is not among them.
 */
module FilterSort {

  /** The fields of a filter's metadata that the alerts read. */
  datatype FilterMetadata = FilterMetadata(
    filterId: int,
    displayNumber: int,
    groupId: int,
    name: string)

  /**
   * The two comparators used: `a.displayNumber - b.displayNumber` for the
   * filters-enabled alert, and the group-aware one for the filters-updated
   * alert.
   */
  datatype Comparator = ByDisplayNumber | ByGroupThenDisplayNumber

  /** JavaScript's `Number(b)` on a boolean. */
  function NumberOfBool(b: bool): int {
    if b then 1 else 0
  }

  /**
   * The comparator's value on `(a, b)`. In the group-aware comparator the
   * second branch is only reached when the groups differ, so it yields
   * `Number(false)`, that is 0: filters of different groups compare equal.
   */
  function Compare(c: Comparator, a: FilterMetadata, b: FilterMetadata): (r: int)
    ensures c.ByGroupThenDisplayNumber? && a.groupId != b.groupId ==> r == 0
    ensures c.ByDisplayNumber? || a.groupId == b.groupId ==> (r > 0 <==> a.displayNumber > b.displayNumber)
  {
    match c
    case ByDisplayNumber => a.displayNumber - b.displayNumber
    case ByGroupThenDisplayNumber =>
      if a.groupId == b.groupId then a.displayNumber - b.displayNumber
      else NumberOfBool(a.groupId == b.groupId)
  }

  /** Non-decreasing `displayNumber` from left to right. */
  ghost predicate SortedByDisplayNumber(s: seq<FilterMetadata>) {
    forall i, j :: 0 <= i < j < |s| ==> s[i].displayNumber <= s[j].displayNumber
  }

  /** Every filter of `s` belongs to group `g`. */
  ghost predicate AllInGroup(s: seq<FilterMetadata>, g: int) {
    forall f :: f in s ==> f.groupId == g
  }

  /**
   * Inserting `x` after the already sorted prefix `t`: `x` moves left past
   * every element that the comparator puts after it, and stops at the first
   * one that it does not.
   */
  function Insert(c: Comparator, t: seq<FilterMetadata>, x: FilterMetadata): seq<FilterMetadata>
    decreases |t|
  {
    if t == [] then [x]
    else if Compare(c, t[|t| - 1], x) > 0 then Insert(c, t[..|t| - 1], x) + [t[|t| - 1]]
    else t + [x]
  }

  /** What the in-place sort leaves in the array, as a function of what was there. */
  function SortSeq(c: Comparator, s: seq<FilterMetadata>): seq<FilterMetadata>
    decreases |s|
  {
    if s == [] then [] else Insert(c, SortSeq(c, s[..|s| - 1]), s[|s| - 1])
  }

  /** The names of the filters, in order (`.map(filter => `${filter.name}`)`). */
  function Names(s: seq<FilterMetadata>): (r: seq<string>)
    ensures |r| == |s|
    decreases |s|
  {
    if s == [] then [] else Names(s[..|s| - 1]) + [s[|s| - 1].name]
  }

  /** Name `i` is the name of filter `i`. */
  lemma {:induction false} NamesAt(s: seq<FilterMetadata>)
    ensures forall i :: 0 <= i < |s| ==> Names(s)[i] == s[i].name
    decreases |s|
  {
    if s != [] {
      NamesAt(s[..|s| - 1]);
    }
  }

  lemma {:induction false} NamesAppend(s: seq<FilterMetadata>, f: FilterMetadata)
    ensures Names(s + [f]) == Names(s) + [f.name]
  {
    assert (s + [f])[..|s|] == s;
  }

  lemma {:induction false} InsertPermutation(c: Comparator, t: seq<FilterMetadata>, x: FilterMetadata)
    ensures multiset(Insert(c, t, x)) == multiset(t) + multiset{x}
    decreases |t|
  {
    if t != [] && Compare(c, t[|t| - 1], x) > 0 {
      var init, last := t[..|t| - 1], t[|t| - 1];
      InsertPermutation(c, init, x);
      assert t == init + [last];
    }
  }

  lemma {:induction false} InsertNames(c: Comparator, t: seq<FilterMetadata>, x: FilterMetadata)
    ensures multiset(Names(Insert(c, t, x))) == multiset(Names(t)) + multiset{x.name}
    decreases |t|
  {
    if t == [] {
      assert Names([x]) == Names([]) + [x.name] by { NamesAppend([], x); }
    } else if Compare(c, t[|t| - 1], x) > 0 {
      var init, last := t[..|t| - 1], t[|t| - 1];
      InsertNames(c, init, x);
      NamesAppend(Insert(c, init, x), last);
      assert Names(t) == Names(init) + [last.name];
      assert Insert(c, t, x) == Insert(c, init, x) + [last];
      calc {
        multiset(Names(Insert(c, t, x)));
        multiset(Names(Insert(c, init, x))) + multiset{last.name};
        multiset(Names(init)) + multiset{x.name} + multiset{last.name};
        multiset(Names(t)) + multiset{x.name};
      }
    } else {
      NamesAppend(t, x);
      assert Insert(c, t, x) == t + [x];
    }
  }

  /** Sorting rearranges the filters and nothing else, under either comparator. */
  lemma {:induction false} SortPermutation(c: Comparator, s: seq<FilterMetadata>)
    ensures multiset(SortSeq(c, s)) == multiset(s)
    ensures |SortSeq(c, s)| == |s|
    decreases |s|
  {
    if s != [] {
      var init, last := s[..|s| - 1], s[|s| - 1];
      SortPermutation(c, init);
      InsertPermutation(c, SortSeq(c, init), last);
      assert s == init + [last];
    }
    assert |SortSeq(c, s)| == |multiset(SortSeq(c, s))|;
  }

  /** The names shown after sorting are the names of the input filters, rearranged. */
  lemma {:induction false} SortNames(c: Comparator, s: seq<FilterMetadata>)
    ensures multiset(Names(SortSeq(c, s))) == multiset(Names(s))
    decreases |s|
  {
    if s != [] {
      var init, last := s[..|s| - 1], s[|s| - 1];
      SortNames(c, init);
      InsertNames(c, SortSeq(c, init), last);
      assert Names(s) == Names(init) + [last.name];
    }
  }

  lemma {:induction false} InsertSorted(t: seq<FilterMetadata>, x: FilterMetadata)
    requires SortedByDisplayNumber(t)
    ensures SortedByDisplayNumber(Insert(ByDisplayNumber, t, x))
    decreases |t|
  {
    if t != [] {
      var init, last := t[..|t| - 1], t[|t| - 1];
      if Compare(ByDisplayNumber, last, x) > 0 {
        InsertSorted(init, x);
        var r := Insert(ByDisplayNumber, init, x);
        InsertPermutation(ByDisplayNumber, init, x);
        forall y | y in r ensures y.displayNumber <= last.displayNumber {
          assert y in multiset(r);
          if y != x {
            assert y in multiset(init);
            var k :| 0 <= k < |init| && init[k] == y;
            assert t[k] == y;
          }
        }
        forall i, j | 0 <= i < j < |r| + 1
          ensures (r + [last])[i].displayNumber <= (r + [last])[j].displayNumber
        {
          if j == |r| { assert r[i] in r; }
        }
      }
    }
  }

  /** Under `a.displayNumber - b.displayNumber` the result is ordered by display number. */
  lemma {:induction false} SortSorted(s: seq<FilterMetadata>)
    ensures SortedByDisplayNumber(SortSeq(ByDisplayNumber, s))
    decreases |s|
  {
    if s != [] {
      SortSorted(s[..|s| - 1]);
      InsertSorted(SortSeq(ByDisplayNumber, s[..|s| - 1]), s[|s| - 1]);
    }
  }

  lemma {:induction false} InsertSameGroup(t: seq<FilterMetadata>, x: FilterMetadata, g: int)
    requires AllInGroup(t, g) && x.groupId == g
    ensures Insert(ByGroupThenDisplayNumber, t, x) == Insert(ByDisplayNumber, t, x)
    decreases |t|
  {
    if t != [] {
      var init := t[..|t| - 1];
      assert t[|t| - 1] in t;
      forall f | f in init ensures f.groupId == g {
        var k :| 0 <= k < |init| && init[k] == f;
        assert t[k] == f;
      }
      InsertSameGroup(init, x, g);
    }
  }

  /**
   * Within one group the group-aware comparator is the display-number
   * comparator, so a single-group list is sorted exactly as by display number.
   */
  lemma {:induction false} SortSameGroup(s: seq<FilterMetadata>, g: int)
    requires AllInGroup(s, g)
    ensures SortSeq(ByGroupThenDisplayNumber, s) == SortSeq(ByDisplayNumber, s)
    ensures SortedByDisplayNumber(SortSeq(ByGroupThenDisplayNumber, s))
    decreases |s|
  {
    if s != [] {
      var init, last := s[..|s| - 1], s[|s| - 1];
      assert last in s;
      forall f | f in init ensures f.groupId == g {
        var k :| 0 <= k < |init| && init[k] == f;
        assert s[k] == f;
      }
      SortSameGroup(init, g);
      var t := SortSeq(ByDisplayNumber, init);
      SortPermutation(ByDisplayNumber, init);
      forall f | f in t ensures f.groupId == g {
        assert f in multiset(t);
        assert f in multiset(init);
      }
      InsertSameGroup(t, last, g);
    }
    SortSorted(s);
  }

  /**
   * Where `Insert` puts `x`: after the last element the comparator does not
   * put after `x`, and before the run of elements it does.
   */
  lemma {:induction false} InsertPosition(c: Comparator, p: seq<FilterMetadata>, j: nat, x: FilterMetadata)
    requires j <= |p|
    requires j == 0 || Compare(c, p[j - 1], x) <= 0
    requires forall k :: j <= k < |p| ==> Compare(c, p[k], x) > 0
    ensures Insert(c, p, x) == p[..j] + [x] + p[j..]
    decreases |p|
  {
    if |p| > j {
      var init, last := p[..|p| - 1], p[|p| - 1];
      assert Compare(c, last, x) > 0;
      assert Insert(c, p, x) == Insert(c, init, x) + [last];
      InsertPosition(c, init, j, x);
      assert init[..j] == p[..j];
      assert init[j..] + [last] == p[j..];
      assert p[..j] + [x] + init[j..] + [last] == p[..j] + [x] + (init[j..] + [last]);
    } else {
      assert p[..j] == p;
    }
  }

  /** A sequence that holds `p` with `x` put in at position `j`. */
  lemma Spliced(b: seq<FilterMetadata>, p: seq<FilterMetadata>, j: nat, x: FilterMetadata)
    requires j <= |p| && |b| == |p| + 1
    requires forall k :: 0 <= k < j ==> b[k] == p[k]
    requires b[j] == x
    requires forall k :: j < k < |b| ==> b[k] == p[k - 1]
    ensures b == p[..j] + [x] + p[j..]
  {
  }

  /**
   * One pass of the sort: moves `a[i]` left into the sorted prefix `a[..i]`.
   */
  method InsertAt(a: array<FilterMetadata>, i: nat, c: Comparator)
    requires i < a.Length
    modifies a
    ensures a[..i + 1] == Insert(c, old(a[..i]), old(a[i]))
    ensures forall k :: i < k < a.Length ==> a[k] == old(a[k])
  {
    var x := a[i];
    ghost var prefix := a[..i];
    var j := i;
    while j > 0 && Compare(c, a[j - 1], x) > 0
      invariant 0 <= j <= i
      invariant forall k :: 0 <= k < j ==> a[k] == prefix[k]
      invariant forall k :: j < k <= i ==> a[k] == prefix[k - 1]
      invariant forall k :: i < k < a.Length ==> a[k] == old(a[k])
      invariant forall k :: j <= k < i ==> Compare(c, prefix[k], x) > 0
    {
      a[j] := a[j - 1];
      j := j - 1;
    }
    a[j] := x;
    InsertPosition(c, prefix, j, x);
    Spliced(a[..i + 1], prefix, j, x);
  }

  /**
   * `array.sort(cmp)`: sorts the caller's array in place. The array ends up
   * holding `SortSeq` of what it held, which `SortPermutation`, `SortSorted`
   * and `SortSameGroup` characterise.
   */
  method SortInPlace(a: array<FilterMetadata>, c: Comparator)
    modifies a
    ensures a[..] == SortSeq(c, old(a[..]))
  {
    ghost var input := a[..];
    var i := 0;
    while i < a.Length
      invariant 0 <= i <= a.Length
      invariant a[..i] == SortSeq(c, input[..i])
      invariant forall k :: i <= k < a.Length ==> a[k] == input[k]
    {
      InsertAt(a, i, c);
      assert input[..i + 1][..i] == input[..i];
      i := i + 1;
    }
    assert input[..a.Length] == input;
  }
}
