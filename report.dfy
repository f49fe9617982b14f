/** The integer part of print_report: the latencies between consecutive
    time stamps, their order under cycles_compare, the in-place sort and
    the minimum, median and maximum read from the sorted array. All
    arithmetic is on cycles_t, an unsigned 64-bit integer. */
module Report {
  import opened Common

  // ---------------------------------------------------------------------
  // Deltas
  // ---------------------------------------------------------------------

  /** tstamp[i + 1] - tstamp[i] in cycles_t: unsigned subtraction wraps. */
  function Delta(later: Cycles, earlier: Cycles): (d: Cycles)
    ensures earlier <= later ==> d == later - earlier
    ensures (earlier + d) % U64 == later
  {
    (later - earlier) % U64
  }

  /** The deltas of a sequence of time stamps. */
  function Deltas(ts: seq<Cycles>): (d: seq<Cycles>)
    requires |ts| >= 1
    ensures |d| == |ts| - 1
    ensures forall i :: 0 <= i < |d| ==> d[i] == Delta(ts[i + 1], ts[i])
  {
    seq(|ts| - 1, i requires 0 <= i < |ts| - 1 => Delta(ts[i + 1], ts[i]))
  }

  /** The time stamps a first stamp and a run of deltas give back. */
  function Replay(start: Cycles, d: seq<Cycles>): (ts: seq<Cycles>)
    ensures |ts| == |d| + 1
    decreases |d|
  {
    if d == [] then [start] else [start] + Replay((start + d[0]) % U64, d[1..])
  }

  /** Nothing is lost in the deltas: adding them up from the first stamp,
      in cycles_t, gives every stamp back. */
  lemma {:induction false} ReplayDeltas(ts: seq<Cycles>)
    requires |ts| >= 1
    ensures Replay(ts[0], Deltas(ts)) == ts
  {
    if |ts| > 1 {
      var d := Deltas(ts);
      assert d[1..] == Deltas(ts[1..]);
      ReplayDeltas(ts[1..]);
      assert (ts[0] + d[0]) % U64 == ts[1];
      assert ts == [ts[0]] + ts[1..];
    }
  }

  /** The delta loop of print_report: delta[i] = tstamp[i + 1] - tstamp[i]
      for each of the iters - 1 gaps between iters stamps. */
  method ComputeDeltas(tstamp: array<Cycles>, iters: nat) returns (delta: array<Cycles>)
    requires 1 <= iters <= tstamp.Length
    ensures fresh(delta)
    ensures delta[..] == Deltas(tstamp[..iters])
  {
    delta := new Cycles[iters - 1];
    var i := 0;
    while i < iters - 1
      invariant 0 <= i <= iters - 1
      invariant forall j :: 0 <= j < i ==> delta[j] == Delta(tstamp[j + 1], tstamp[j])
    {
      delta[i] := Delta(tstamp[i + 1], tstamp[i]);
      i := i + 1;
    }
  }

  // ---------------------------------------------------------------------
  // Order
  // ---------------------------------------------------------------------

  /** cycles_compare: the three-way comparison qsort is given. */
  function CyclesCompare(a: Cycles, b: Cycles): (r: int)
    ensures r == -1 || r == 0 || r == 1
    ensures r < 0 <==> a < b
    ensures r == 0 <==> a == b
    ensures r > 0 <==> a > b
  {
    if a < b then -1 else if a > b then 1 else 0
  }

  /** The comparator is a consistent total order, as qsort requires:
      swapping the arguments negates it, and it is transitive. */
  lemma CompareConsistent(a: Cycles, b: Cycles, c: Cycles)
    ensures CyclesCompare(a, b) == -CyclesCompare(b, a)
    ensures CyclesCompare(a, b) <= 0 && CyclesCompare(b, c) <= 0 ==> CyclesCompare(a, c) <= 0
  {
  }

  predicate Sorted(s: seq<Cycles>) {
    forall i, j :: 0 <= i < j < |s| ==> s[i] <= s[j]
  }

  /** qsort(delta, iters - 1, sizeof *delta, cycles_compare): rearranges
      the array into non-decreasing order under the comparator. The
      algorithm qsort uses is not specified; this one inserts each element
      into the sorted prefix by swapping it down. */
  method SortCycles(a: array<Cycles>)
    modifies a
    ensures Sorted(a[..])
    ensures multiset(a[..]) == multiset(old(a[..]))
  {
    var i := 0;
    while i < a.Length
      invariant 0 <= i <= a.Length
      invariant Sorted(a[..i])
      invariant multiset(a[..]) == multiset(old(a[..]))
    {
      InsertDown(a, i);
      i := i + 1;
    }
  }

  /** Moves a[i] down into the sorted prefix a[..i], one swap at a time,
      while its left neighbour compares greater. */
  method InsertDown(a: array<Cycles>, i: nat)
    requires i < a.Length && Sorted(a[..i])
    modifies a
    ensures Sorted(a[..i + 1])
    ensures multiset(a[..]) == multiset(old(a[..]))
    ensures a[i + 1..] == old(a[i + 1..])
  {
    var j := i;
    while j > 0 && CyclesCompare(a[j - 1], a[j]) > 0
      invariant 0 <= j <= i < a.Length
      invariant Inserting(a[..], i, j)
      invariant multiset(a[..]) == multiset(old(a[..]))
      invariant a[i + 1..] == old(a[i + 1..])
    {
      ghost var before := a[..];
      a[j - 1], a[j] := a[j], a[j - 1];
      assert a[..] == Swap(before, j);
      SwapDown(before, i, j);
      j := j - 1;
    }
    Inserted(a[..], i, j);
  }

  /** The state of the insertion: the prefix up to i is in order except
      for the element travelling down at j, which is no greater than
      anything to its right. */
  ghost predicate Inserting(s: seq<Cycles>, i: nat, j: nat)
    requires j <= i < |s|
  {
    (forall x, y :: 0 <= x < y <= i && x != j && y != j ==> s[x] <= s[y]) &&
    (forall y :: j < y <= i ==> s[j] <= s[y])
  }

  /** s with positions j - 1 and j exchanged. */
  function Swap(s: seq<Cycles>, j: nat): (t: seq<Cycles>)
    requires 0 < j < |s|
    ensures |t| == |s| && t[j - 1] == s[j] && t[j] == s[j - 1]
    ensures forall k :: 0 <= k < |s| && k != j - 1 && k != j ==> t[k] == s[k]
    ensures multiset(t) == multiset(s)
  {
    s[j - 1 := s[j]][j := s[j - 1]]
  }

  /** One swap moves the travelling element down and keeps the state. */
  lemma SwapDown(s: seq<Cycles>, i: nat, j: nat)
    requires 0 < j <= i < |s| && Inserting(s, i, j) && s[j - 1] > s[j]
    ensures Inserting(Swap(s, j), i, j - 1)
    ensures Swap(s, j)[i + 1..] == s[i + 1..]
  {
    var t := Swap(s, j);
    forall x, y | 0 <= x < y <= i && x != j - 1 && y != j - 1
      ensures t[x] <= t[y]
    {
      if y == j {
        assert t[y] == s[j - 1];
      } else if x == j {
        assert s[j - 1] <= s[y];
      }
    }
  }

  /** Once the travelling element meets a smaller or equal left neighbour,
      or the front, the prefix up to i is sorted. */
  lemma Inserted(s: seq<Cycles>, i: nat, j: nat)
    requires j <= i < |s| && Inserting(s, i, j)
    requires j == 0 || s[j - 1] <= s[j]
    ensures Sorted(s[..i + 1])
  {
    forall x, y | 0 <= x < y <= i
      ensures s[x] <= s[y]
    {
      if y == j && x < j - 1 {
        assert s[x] <= s[j - 1];
      }
    }
  }

  /** The first and last elements of a sorted permutation are the least
      and the greatest of the values. */
  lemma SortedEnds(s: seq<Cycles>, t: seq<Cycles>)
    requires Sorted(s) && multiset(s) == multiset(t) && |s| > 0
    ensures forall x :: x in t ==> s[0] <= x <= s[|s| - 1]
    ensures s[0] in t && s[|s| - 1] in t
  {
    forall x | x in t
      ensures s[0] <= x <= s[|s| - 1]
    {
      assert x in multiset(t);
      assert x in multiset(s);
      var k :| 0 <= k < |s| && s[k] == x;
    }
    assert s[0] in multiset(s);
    assert s[|s| - 1] in multiset(s);
  }

  // ---------------------------------------------------------------------
  // Median
  // ---------------------------------------------------------------------

  /** get_median as written: for an even count the two middle cycles_t
      values are added in cycles_t, so the sum wraps before the halving. */
  function MedianAsWritten(d: seq<Cycles>): (m: Cycles)
    requires |d| >= 1
    ensures |d| % 2 == 1 ==> m == d[|d| / 2]
  {
    var n := |d|;
    if (n - 1) % 2 != 0 then ((d[n / 2] + d[n / 2 - 1]) % U64) / 2
    else d[n / 2]
  }

  /** The median get_median means to compute: the middle element of an
      odd count, the mean of the two middle elements, truncated, of an
      even count. */
  function Median(d: seq<Cycles>): (m: Cycles)
    requires |d| >= 1
    ensures d[(|d| - 1) / 2] <= d[|d| / 2] ==> d[(|d| - 1) / 2] <= m <= d[|d| / 2]
    ensures |d| % 2 == 1 ==> m == d[|d| / 2]
    ensures |d| % 2 == 0 ==> 2 * m <= d[|d| / 2 - 1] + d[|d| / 2] <= 2 * m + 1
  {
    var n := |d|;
    if (n - 1) % 2 != 0 then
      var sum := (d[n / 2] as int) + (d[n / 2 - 1] as int);
      assert sum / 2 < U64;
      sum / 2
    else d[n / 2]
  }

  /** On a sorted array the median lies between the minimum and the
      maximum, and splits the array: everything before the middle is at
      most the median, everything after it at least. */
  lemma MedianBetween(d: seq<Cycles>)
    requires |d| >= 1 && Sorted(d)
    ensures d[0] <= Median(d) <= d[|d| - 1]
    ensures forall i :: 0 <= i < (|d| - 1) / 2 ==> d[i] <= Median(d)
    ensures forall i :: |d| / 2 < i < |d| ==> Median(d) <= d[i]
  {
  }

  /** The truncation of an even count: four deltas 1, 2, 3, 4 give 2. */
  lemma MedianOfFour()
    ensures Median([1, 2, 3, 4]) == 2
  {
  }

  /** The two middle deltas of an even count add up without wrapping in
      cycles_t; an odd count has one middle delta and nothing to add. */
  predicate MiddlesFit(d: seq<Cycles>)
    requires |d| >= 1
  {
    |d| % 2 == 0 ==> d[|d| / 2 - 1] + d[|d| / 2] < U64
  }

  /** The two agree whenever the two middle deltas fit in cycles_t
      together, and for every odd count. */
  lemma MedianAsWrittenAgrees(d: seq<Cycles>)
    requires |d| >= 1 && MiddlesFit(d)
    ensures MedianAsWritten(d) == Median(d)
  {
  }

  /** Two deltas of 2^64 - 2 cycles (a counter that went backwards) give a
      median, as written, of 2^63 - 2: below both deltas. */
  lemma MedianAsWrittenBelowMin()
    ensures var d: seq<Cycles> := [U64 - 2, U64 - 2];
      Sorted(d) && MedianAsWritten(d) == U64 / 2 - 2 && MedianAsWritten(d) < d[0]
  {
  }

  /** What print_report prints as the median: get_median as written, which
      on sorted deltas whose two middle values add up without wrapping is
      the true median, between the first and the last delta. */
  lemma ReportedMedian(d: seq<Cycles>)
    requires |d| >= 1 && Sorted(d)
    ensures MiddlesFit(d) ==> MedianAsWritten(d) == Median(d) && d[0] <= MedianAsWritten(d) <= d[|d| - 1]
  {
    if MiddlesFit(d) {
      MedianAsWrittenAgrees(d);
      MedianBetween(d);
    }
  }

  // ---------------------------------------------------------------------
  // The report
  // ---------------------------------------------------------------------

  /** The integer part of print_report for iters time stamps: the iters - 1
      deltas, sorted in place, give the minimum (first), the maximum
      (last) and the median get_median computes as written. When the two
      middle deltas add up without wrapping, that is the true median and
      lies between the minimum and the maximum. */
  method Summarize(tstamp: array<Cycles>, iters: nat)
    returns (delta: array<Cycles>, min: Cycles, median: Cycles, max: Cycles)
    requires 2 <= iters <= tstamp.Length
    ensures fresh(delta) && delta.Length == iters - 1
    ensures Sorted(delta[..]) && multiset(delta[..]) == multiset(Deltas(tstamp[..iters]))
    ensures min == delta[0] && max == delta[iters - 2] && median == MedianAsWritten(delta[..])
    ensures forall x :: x in Deltas(tstamp[..iters]) ==> min <= x <= max
    ensures min in Deltas(tstamp[..iters]) && max in Deltas(tstamp[..iters])
    ensures MiddlesFit(delta[..]) ==> median == Median(delta[..]) && min <= median <= max
  {
    ghost var ds := Deltas(tstamp[..iters]);
    delta := ComputeDeltas(tstamp, iters);
    SortCycles(delta);
    ghost var sorted := delta[..];
    min, median, max := delta[0], MedianAsWritten(delta[..]), delta[iters - 2];
    SortedEnds(sorted, ds);
    ReportedMedian(sorted);
  }
}
