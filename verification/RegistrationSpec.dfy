/** The two-pass allocator of handler indices, on values: what one pass and one
    client call do, when they succeed, and which slot everybody gets. */
module RegistrationSpec {
  import opened Dispatch

  predicate Free(table: seq<Entry>, j: int) { 0 <= j < |table| && table[j].index == 0 }

  /** Number of free slots in [lo, hi). */
  function FreeCount(table: seq<Entry>, lo: int, hi: int): nat
    decreases hi - lo
  {
    if lo >= hi then 0 else (if Free(table, lo) then 1 else 0) + FreeCount(table, lo + 1, hi)
  }

  /** The highest free slot in [low, high), or low - 1. */
  function TopFree(table: seq<Entry>, low: int, high: int): (r: int)
    requires low <= high <= |table|
    ensures low - 1 <= r < high
    ensures r >= low ==> Free(table, r)
    ensures forall j :: r < j < high && low <= j ==> !Free(table, j)
    decreases high - low
  {
    if high == low then low - 1
    else if Free(table, high - 1) then high - 1
    else TopFree(table, low, high - 1)
  }

  /** Outcome of a pass: how far it got, and what it left behind. */
  datatype PassResult = PassResult(ok: bool, stop: nat, table: seq<Entry>, input: seq<Entry>, count: nat)

  /** Does the pass handle this entry? */
  predicate Mine(e: Entry, dontcare: bool) { (e.index == 0) == dontcare }

  /** One pass of registration from entry i on. */
  function Pass(table: seq<Entry>, input: seq<Entry>, i: nat, low: nat, high: nat, dontcare: bool): (r: PassResult)
    requires i <= |input| && 1 <= low <= high <= |table|
    ensures |r.table| == |table| && |r.input| == |input| && i <= r.stop <= |input|
    ensures r.ok ==> r.stop == |input|
    ensures !r.ok ==> r.stop < |input|
    ensures forall a :: 0 <= a < |input| && (a < i || a >= r.stop) ==> r.input[a] == input[a]
    decreases |input| - i
  {
    if i == |input| then PassResult(true, i, table, input, 0)
    else if !Mine(input[i], dontcare) then Pass(table, input, i + 1, low, high, dontcare)
    else
      var newindex := if dontcare then TopFree(table, low, high) else input[i].index;
      if newindex < low || newindex >= high || table[newindex].index != 0
      then PassResult(false, i, table, input, 0)
      else
        var e := input[i].(index := newindex);
        var r := Pass(table[newindex := e], input[i := e], i + 1, low, high, dontcare);
        r.(count := r.count + 1)
  }

  // ----- counting ---------------------------------------------------------

  lemma {:induction false} FreeCountSplit(table: seq<Entry>, lo: int, mid: int, hi: int)
    requires lo <= mid <= hi
    ensures FreeCount(table, lo, hi) == FreeCount(table, lo, mid) + FreeCount(table, mid, hi)
    decreases mid - lo
  {
    if lo < mid { FreeCountSplit(table, lo + 1, mid, hi); }
  }

  lemma {:induction false} FreeCountNone(table: seq<Entry>, lo: int, hi: int)
    requires forall j :: lo <= j < hi ==> !Free(table, j)
    ensures FreeCount(table, lo, hi) == 0
    decreases hi - lo
  {
    if lo < hi { FreeCountNone(table, lo + 1, hi); }
  }

  /** Taking a free slot removes it from every count that contains it. */
  lemma {:induction false} FreeCountTake(table: seq<Entry>, k: nat, e: Entry, lo: int, hi: int)
    requires Free(table, k) && e.index != 0
    ensures FreeCount(table[k := e], lo, hi) == FreeCount(table, lo, hi) - (if lo <= k < hi then 1 else 0)
    decreases hi - lo
  {
    if lo < hi { FreeCountTake(table, k, e, lo + 1, hi); }
  }

  function MineCount(input: seq<Entry>, from: nat, to: nat, dontcare: bool): nat
    requires from <= to <= |input|
    decreases |input| - from
  {
    if from == to then 0 else (if Mine(input[from], dontcare) then 1 else 0) + MineCount(input, from + 1, to, dontcare)
  }

  lemma {:induction false} MineCountFrame(a: seq<Entry>, b: seq<Entry>, from: nat, to: nat, dontcare: bool)
    requires from <= to <= |a| && |a| == |b|
    requires forall j :: from <= j < to ==> a[j] == b[j]
    ensures MineCount(a, from, to, dontcare) == MineCount(b, from, to, dontcare)
    decreases |a| - from
  {
    if from < to { MineCountFrame(a, b, from + 1, to, dontcare); }
  }

  lemma {:induction false} MineCountTotal(input: seq<Entry>, from: nat, to: nat)
    requires from <= to <= |input|
    ensures MineCount(input, from, to, false) + MineCount(input, from, to, true) == to - from
    decreases |input| - from
  {
    if from < to { MineCountTotal(input, from + 1, to); }
  }

  // ----- the fixed-index pass ---------------------------------------------

  predicate FixedAt(table: seq<Entry>, input: seq<Entry>, a: nat, low: nat, high: nat)
    requires a < |input|
  {
    input[a].index != 0 ==> low <= input[a].index < high && Free(table, input[a].index)
  }

  predicate Apart(input: seq<Entry>, a: nat, b: nat)
    requires a < |input| && b < |input|
  {
    input[a].index != 0 && input[b].index != 0 ==> input[a].index != input[b].index
  }

  /** Fixed indices are in range, free, and pairwise distinct. */
  ghost predicate FixedOk(table: seq<Entry>, input: seq<Entry>, i: nat, low: nat, high: nat) {
    && (forall a :: i <= a < |input| ==> FixedAt(table, input, a, low, high))
    && (forall a, b :: i <= a < b < |input| ==> Apart(input, a, b))
  }

  /** Slot j after the fixed entries of input[i..stop] have been installed. */
  ghost predicate FixedSlot(table: seq<Entry>, input: seq<Entry>, i: nat, stop: nat, table': seq<Entry>, j: nat)
    requires i <= stop <= |input| && j < |table| && |table'| == |table|
  {
    && (forall a :: i <= a < stop && input[a].index == j && j != 0 ==> table'[j] == input[a])
    && ((forall a :: i <= a < stop ==> input[a].index != j) || j == 0 ==> table'[j] == table[j])
  }

  /** What the fixed-index pass comes to: it goes through iff the fixed indices
      allow it, leaves the input alone, and fills exactly the slots asked for. */
  ghost predicate FixedResult(table: seq<Entry>, input: seq<Entry>, i: nat, low: nat, high: nat)
    requires i <= |input| && 1 <= low <= high <= |table|
  {
    var r := Pass(table, input, i, low, high, false);
    && r.ok == FixedOk(table, input, i, low, high)
    && r.input == input
    && r.count == MineCount(input, i, r.stop, false)
    && FreeCount(r.table, low, high) == FreeCount(table, low, high) - r.count
    && forall j :: 0 <= j < |table| ==> FixedSlot(table, input, i, r.stop, r.table, j)
  }

  lemma {:induction false} FixedPass(table: seq<Entry>, input: seq<Entry>, i: nat, low: nat, high: nat)
    requires i <= |input| && 1 <= low <= high <= |table|
    ensures FixedResult(table, input, i, low, high)
    decreases |input| - i
  {
    if i < |input| {
      if input[i].index == 0 {
        FixedPass(table, input, i + 1, low, high);
        FixedSkips(table, input, i, low, high);
      } else if FixedAt(table, input, i, low, high) {
        FixedPass(table[input[i].index := input[i]], input, i + 1, low, high);
        FixedTakes(table, input, i, low, high);
      }
    }
  }

  lemma {:induction false} FixedSkips(table: seq<Entry>, input: seq<Entry>, i: nat, low: nat, high: nat)
    requires i < |input| && 1 <= low <= high <= |table| && input[i].index == 0
    requires FixedResult(table, input, i + 1, low, high)
    ensures FixedResult(table, input, i, low, high)
  {
    var r := Pass(table, input, i, low, high, false);
    FixedOkSkip(table, input, i, low, high);
    forall j | 0 <= j < |table| ensures FixedSlot(table, input, i, r.stop, r.table, j) {
      assert FixedSlot(table, input, i + 1, r.stop, r.table, j);
    }
  }

  lemma {:induction false} FixedTakes(table: seq<Entry>, input: seq<Entry>, i: nat, low: nat, high: nat)
    requires i < |input| && 1 <= low <= high <= |table| && input[i].index != 0 && FixedAt(table, input, i, low, high)
    requires FixedResult(table[input[i].index := input[i]], input, i + 1, low, high)
    ensures FixedResult(table, input, i, low, high)
  {
    var k := input[i].index;
    var t := table[k := input[i]];
    assert input[i].(index := k) == input[i] && input[i := input[i]] == input;
    var q, r := Pass(t, input, i + 1, low, high, false), Pass(table, input, i, low, high, false);
    assert r == q.(count := q.count + 1);
    FixedOkTake(table, input, i, low, high);
    FreeCountTake(table, k, input[i], low, high);
    forall j | 0 <= j < |table| ensures FixedSlot(table, input, i, r.stop, r.table, j) {
      assert FixedSlot(t, input, i + 1, q.stop, q.table, j);
      FixedSlotTake(table, input, i, r, low, high, j);
    }
  }

  lemma {:induction false} FixedOkSkip(table: seq<Entry>, input: seq<Entry>, i: nat, low: nat, high: nat)
    requires i < |input| && input[i].index == 0
    ensures FixedOk(table, input, i, low, high) <==> FixedOk(table, input, i + 1, low, high)
  {
    if FixedOk(table, input, i + 1, low, high) {
      forall a | i <= a < |input| ensures FixedAt(table, input, a, low, high) {
        if a > i { assert FixedAt(table, input, a, low, high); }
      }
      forall a, b | i <= a < b < |input| ensures Apart(input, a, b) {
        if a > i { assert Apart(input, a, b); }
      }
    }
  }

  lemma {:induction false} FixedOkTake(table: seq<Entry>, input: seq<Entry>, i: nat, low: nat, high: nat)
    requires i < |input| && 1 <= low <= high <= |table| && input[i].index != 0 && FixedAt(table, input, i, low, high)
    ensures FixedOk(table, input, i, low, high) <==> FixedOk(table[input[i].index := input[i]], input, i + 1, low, high)
  {
    var t := table[input[i].index := input[i]];
    if FixedOk(table, input, i, low, high) {
      forall a | i + 1 <= a < |input| ensures FixedAt(t, input, a, low, high) {
        assert FixedAt(table, input, a, low, high) && Apart(input, i, a);
      }
    }
    if FixedOk(t, input, i + 1, low, high) {
      forall a | i <= a < |input| ensures FixedAt(table, input, a, low, high) {
        if a > i { assert FixedAt(t, input, a, low, high); }
      }
      forall a, b | i <= a < b < |input| ensures Apart(input, a, b) {
        if a == i { assert FixedAt(t, input, b, low, high); } else { assert Apart(input, a, b); }
      }
    }
  }

  /** An occupied slot is never written again. */
  lemma {:induction false} OccupiedStays(table: seq<Entry>, input: seq<Entry>, i: nat, low: nat, high: nat, dontcare: bool, j: nat)
    requires i <= |input| && 1 <= low <= high <= |table| && j < |table|
    ensures var r := Pass(table, input, i, low, high, dontcare);
            && (table[j].index != 0 || j < low || j >= high ==> r.table[j] == table[j])
            && (r.table[j] != table[j] ==> r.table[j].index == j)
    decreases |input| - i
  {
    if i < |input| {
      if !Mine(input[i], dontcare) {
        OccupiedStays(table, input, i + 1, low, high, dontcare, j);
      } else {
        var newindex := if dontcare then TopFree(table, low, high) else input[i].index;
        if low <= newindex < high && table[newindex].index == 0 {
          var e := input[i].(index := newindex);
          OccupiedStays(table[newindex := e], input[i := e], i + 1, low, high, dontcare, j);
        }
      }
    }
  }

  lemma {:induction false} FixedSlotTake(table: seq<Entry>, input: seq<Entry>, i: nat, r: PassResult, low: nat, high: nat, j: nat)
    requires i < |input| && 1 <= low <= high <= |table| && j < |table| && input[i].index != 0
    requires FixedAt(table, input, i, low, high)
    requires var k := input[i].index;
             k < |table| && r == Pass(table, input, i, low, high, false) && i + 1 <= r.stop <= |input|
             && r.table == Pass(table[k := input[i]], input, i + 1, low, high, false).table
             && FixedSlot(table[k := input[i]], input, i + 1, r.stop, r.table, j)
    ensures FixedSlot(table, input, i, r.stop, r.table, j)
  {
    var k := input[i].index;
    OccupiedStays(table[k := input[i]], input, i + 1, low, high, false, k);
  }

  // ----- the don't-care pass ----------------------------------------------

  /** Slot k is the free slot with exactly `rank` free slots above it. */
  ghost predicate RankedFree(table: seq<Entry>, k: int, rank: nat, low: nat, high: nat) {
    low <= k < high && Free(table, k) && FreeCount(table, k + 1, high) == rank
  }

  /** The rank identifies the slot. */
  lemma {:induction false} RankIsUnique(table: seq<Entry>, k: int, m: int, rank: nat, low: nat, high: nat)
    requires RankedFree(table, k, rank, low, high) && RankedFree(table, m, rank, low, high)
    ensures k == m
  {
    if k < m { FreeCountSplit(table, k + 1, m, high); }
    if m < k { FreeCountSplit(table, m + 1, k, high); }
  }

  lemma {:induction false} TopIsRankZero(table: seq<Entry>, low: nat, high: nat)
    requires 1 <= low <= high <= |table|
    ensures var k := TopFree(table, low, high);
            && (FreeCount(table, low, high) > 0 <==> k >= low)
            && (k >= low ==> RankedFree(table, k, 0, low, high))
  {
    var k := TopFree(table, low, high);
    FreeCountNone(table, k + 1, high);
    if k < low { FreeCountNone(table, low, high); }
    else { FreeCountSplit(table, low, k, high); }
  }

  /** A slot that is free after the top one was taken has one more free slot above
      it in the table as it was. */
  lemma {:induction false} RankShift(table: seq<Entry>, e: Entry, k: int, rank: nat, low: nat, high: nat)
    requires 1 <= low <= high <= |table| && TopFree(table, low, high) >= low && e.index != 0
    requires RankedFree(table[TopFree(table, low, high) := e], k, rank, low, high)
    ensures RankedFree(table, k, rank + 1, low, high)
  {
    var top := TopFree(table, low, high);
    var t := table[top := e];
    assert k != top && table[k] == t[k] && Free(table, k);
    assert k < top;
    FreeCountTake(table, top, e, k + 1, high);
    assert FreeCount(table, k + 1, high) == rank + 1;
  }

  /** What the don't-care pass gives to entry a. */
  ghost predicate Given(table: seq<Entry>, input: seq<Entry>, i: nat, r: PassResult, a: nat, low: nat, high: nat)
    requires i <= a < |input| && |r.input| == |input|
  {
    var e := r.input[a];
    if Mine(input[a], true)
    then && RankedFree(table, e.index, MineCount(input, i, a, true), low, high)
         && e == input[a].(index := e.index) && e.index < |r.table| && r.table[e.index] == e
    else e == input[a]
  }

  lemma {:induction false} DontCarePass(table: seq<Entry>, input: seq<Entry>, i: nat, low: nat, high: nat)
    requires i <= |input| && 1 <= low <= high <= |table|
    ensures var r := Pass(table, input, i, low, high, true);
            && (r.ok <==> MineCount(input, i, |input|, true) <= FreeCount(table, low, high))
            && r.count == MineCount(input, i, r.stop, true)
            && forall a :: i <= a < r.stop ==> Given(table, input, i, r, a, low, high)
    decreases |input| - i
  {
    var r := Pass(table, input, i, low, high, true);
    if i < |input| {
      if !Mine(input[i], true) {
        DontCarePass(table, input, i + 1, low, high);
        forall a | i <= a < r.stop ensures Given(table, input, i, r, a, low, high) {
          if a > i { assert Given(table, input, i + 1, r, a, low, high); }
        }
      } else {
        TopIsRankZero(table, low, high);
        var k := TopFree(table, low, high);
        if k >= low {
          var e := input[i].(index := k);
          var t, inp := table[k := e], input[i := e];
          DontCarePass(t, inp, i + 1, low, high);
          FreeCountTake(table, k, e, low, high);
          MineCountFrame(input, inp, i + 1, |input|, true);
          MineCountFrame(input, inp, i + 1, r.stop, true);
          OccupiedStays(t, inp, i + 1, low, high, true, k);
          forall a | i <= a < r.stop ensures Given(table, input, i, r, a, low, high) {
            if a > i {
              assert Given(t, inp, i + 1, Pass(t, inp, i + 1, low, high, true), a, low, high);
              GivenCons(table, input, i, r, a, low, high);
            }
          }
        }
      }
    }
  }

  /** What a later entry is given does not depend on where the counting starts. */
  lemma {:induction false} GivenCons(table: seq<Entry>, input: seq<Entry>, i: nat, r: PassResult, a: nat, low: nat, high: nat)
    requires i < a < |input| && |r.input| == |input| && 1 <= low <= high <= |table| && Mine(input[i], true)
    requires TopFree(table, low, high) >= low
    requires var k := TopFree(table, low, high);
             var e := input[i].(index := k);
             exists q: PassResult :: q.table == r.table && q.input == r.input && |q.input| == |input|
                                     && Given(table[k := e], input[i := e], i + 1, q, a, low, high)
    ensures Given(table, input, i, r, a, low, high)
  {
    var k := TopFree(table, low, high);
    var e := input[i].(index := k);
    MineCountFrame(input, input[i := e], i + 1, a, true);
    if Mine(input[a], true) {
      RankShift(table, e, r.input[a].index, MineCount(input, i + 1, a, true), low, high);
    }
  }

  lemma {:induction false} PrefixTake(table: seq<Entry>, input: seq<Entry>, i: nat, low: nat, high: nat, dontcare: bool, k: nat)
    requires i < |input| && 1 <= low <= high <= |table| && Mine(input[i], dontcare)
    requires k == (if dontcare then TopFree(table, low, high) else input[i].index) && low <= k < high && table[k].index == 0
    ensures var e := input[i].(index := k);
            var r := Pass(table[k := e], input[i := e], i + 1, low, high, dontcare);
            Pass(table, input, i, low, high, dontcare) == r.(count := r.count + 1)
  {
  }

  /** The pass p over a prefix does what r does, as far as it goes. */
  predicate DoesPrefix(p: PassResult, r: PassResult, input: seq<Entry>)
    requires |r.input| == |input| && r.stop <= |input|
  {
    p.ok && p.table == r.table && p.input == r.input[..r.stop] && r.input[r.stop..] == input[r.stop..] && p.count == r.count
  }

  /** A pass that fails has done exactly what it would have done for the entries
      before the one that failed. */
  lemma {:induction false} FailureInstallsPrefix(table: seq<Entry>, input: seq<Entry>, i: nat, low: nat, high: nat, dontcare: bool)
    requires i <= |input| && 1 <= low <= high <= |table|
    ensures var r := Pass(table, input, i, low, high, dontcare);
            DoesPrefix(Pass(table, input[..r.stop], i, low, high, dontcare), r, input)
    decreases |input| - i, 1
  {
    var r := Pass(table, input, i, low, high, dontcare);
    if i < r.stop {
      if !Mine(input[i], dontcare) {
        FailureInstallsPrefix(table, input, i + 1, low, high, dontcare);
      } else {
        PrefixCons(table, input, i, low, high, dontcare, if dontcare then TopFree(table, low, high) else input[i].index);
      }
    }
  }

  lemma {:induction false} PrefixCons(table: seq<Entry>, input: seq<Entry>, i: nat, low: nat, high: nat, dontcare: bool, k: nat)
    requires i < |input| && 1 <= low <= high <= |table| && Mine(input[i], dontcare)
    requires k == (if dontcare then TopFree(table, low, high) else input[i].index) && low <= k < high && table[k].index == 0
    ensures var r := Pass(table, input, i, low, high, dontcare);
            DoesPrefix(Pass(table, input[..r.stop], i, low, high, dontcare), r, input)
    decreases |input| - i, 0
  {
    var e := input[i].(index := k);
    var t, x := table[k := e], input[i := e];
    PrefixTake(table, input, i, low, high, dontcare, k);
    FailureInstallsPrefix(t, x, i + 1, low, high, dontcare);
    var q := Pass(t, x, i + 1, low, high, dontcare);
    assert x[..q.stop] == input[..q.stop][i := e] && x[q.stop..] == input[q.stop..];
    PrefixTake(table, input[..q.stop], i, low, high, dontcare, k);
  }
}
