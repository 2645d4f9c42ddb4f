/** Client registration calls, and sequences of them, on one endpoint's table. */
module Registration {
  import opened Dispatch
  import opened RegistrationSpec

  const CLIENT_BASE: nat := 128
  const MAX_HANDLERS: nat := 256

  /** Fatal is the validation error that stops the job. */
  datatype Status = Ok | BadArg | Resource | Fatal

  /** What a client passes: possibly a null pointer with a claimed length. */
  datatype Input = Null(claimed: nat) | Entries(entries: seq<Entry>)

  datatype Outcome = Outcome(status: Status, table: seq<Entry>, entries: seq<Entry>, numreg1: nat, numreg2: nat)

  predicate IsTable(table: seq<Entry>) { |table| == MAX_HANDLERS }

  function First(table: seq<Entry>, input: seq<Entry>): (r: PassResult)
    requires IsTable(table)
    ensures |r.table| == |table| && |r.input| == |input|
  {
    Pass(table, input, 0, CLIENT_BASE, MAX_HANDLERS, false)
  }

  function Second(table: seq<Entry>, input: seq<Entry>): (r: PassResult)
    requires IsTable(table)
    ensures |r.table| == |table| && |r.input| == |input|
  {
    Pass(table, input, 0, CLIENT_BASE, MAX_HANDLERS, true)
  }

  /** gasneti_amregister_client */
  function Client(table: seq<Entry>, input: Input, maxArgs: nat): (r: Outcome)
    requires IsTable(table)
    ensures IsTable(r.table)
  {
    match input
    case Null(n) => Outcome(if n == 0 then Ok else BadArg, table, [], 0, 0)
    case Entries(input) =>
      if |input| == 0 then Outcome(Ok, table, input, 0, 0)
      else if |input| > MAX_HANDLERS - CLIENT_BASE then Outcome(BadArg, table, input, 0, 0)
      else if !ValidTable(input, maxArgs) then Outcome(Fatal, table, input, 0, 0)
      else
        var p := First(table, input);
        if !p.ok then Outcome(Resource, p.table, p.input, p.count, 0)
        else
          var q := Second(p.table, p.input);
          Outcome(if q.ok then Ok else Resource, q.table, q.input, p.count, q.count)
  }

  // ----- when a call succeeds, and what it then leaves ---------------------

  function FreeSlots(table: seq<Entry>): nat { FreeCount(table, CLIENT_BASE, MAX_HANDLERS) }

  function DontCares(input: seq<Entry>): nat { MineCount(input, 0, |input|, true) }

  function Fixeds(input: seq<Entry>): nat { MineCount(input, 0, |input|, false) }

  /** The caller's condition: fixed indices in range, free and distinct, and enough
      slots left over for the rest. */
  ghost predicate Fits(table: seq<Entry>, input: seq<Entry>) {
    && FixedOk(table, input, 0, CLIENT_BASE, MAX_HANDLERS)
    && DontCares(input) <= FreeSlots(table) - Fixeds(input)
  }

  /** Entry a of the input after a successful call: installed where it says it is. */
  predicate Installed(table: seq<Entry>, e: Entry) {
    CLIENT_BASE <= e.index < MAX_HANDLERS && e.index < |table| && table[e.index] == e
  }

  predicate SameHandler(e: Entry, was: Entry) {
    e == was.(index := e.index) && (was.index != 0 ==> e == was)
  }

  /** A call with a table of acceptable size and content succeeds exactly when it
      fits; then every entry is installed at its own index, no two share one, and
      the two passes between them handled each entry once. */
  lemma {:induction false} ClientSucceedsIffFits(table: seq<Entry>, input: seq<Entry>, maxArgs: nat)
    requires IsTable(table) && 0 < |input| <= MAX_HANDLERS - CLIENT_BASE && ValidTable(input, maxArgs)
    ensures var r := Client(table, Entries(input), maxArgs);
            && (r.status == Ok <==> Fits(table, input))
            && (r.status == Ok || r.status == Resource)
            && (r.status == Ok ==>
                 && r.numreg1 + r.numreg2 == |input| == |r.entries|
                 && r.numreg1 == Fixeds(input) && r.numreg2 == DontCares(input)
                 && FreeSlots(r.table) == FreeSlots(table) - |input|
                 && (forall a :: 0 <= a < |input| ==> Installed(r.table, r.entries[a]) && SameHandler(r.entries[a], input[a]))
                 && (forall a, b :: 0 <= a < b < |input| ==> r.entries[a].index != r.entries[b].index))
  {
    var p := First(table, input);
    var q := Second(p.table, p.input);
    var r := Client(table, Entries(input), maxArgs);
    FixedPass(table, input, 0, CLIENT_BASE, MAX_HANDLERS);
    if p.ok {
      DontCarePass(p.table, input, 0, CLIENT_BASE, MAX_HANDLERS);
      DontCareTakes(p.table, input, 0, CLIENT_BASE, MAX_HANDLERS);
      MineCountTotal(input, 0, |input|);
      if q.ok {
        forall a | 0 <= a < |input| ensures Installed(r.table, r.entries[a]) && SameHandler(r.entries[a], input[a]) {
          EntryInstalled(table, input, a);
        }
        forall a, b | 0 <= a < b < |input| ensures r.entries[a].index != r.entries[b].index {
          EntriesApart(table, input, a, b);
        }
      }
    }
  }

  lemma {:induction false} EntryInstalled(table: seq<Entry>, input: seq<Entry>, a: nat)
    requires IsTable(table) && a < |input|
    requires var p := First(table, input); p.ok && Second(p.table, p.input).ok
    ensures var p := First(table, input);
            var q := Second(p.table, p.input);
            Installed(q.table, q.input[a]) && SameHandler(q.input[a], input[a])
  {
    var p := First(table, input);
    FixedPass(table, input, 0, CLIENT_BASE, MAX_HANDLERS);
    var q := Second(p.table, input);
    DontCarePass(p.table, input, 0, CLIENT_BASE, MAX_HANDLERS);
    assert Given(p.table, input, 0, q, a, CLIENT_BASE, MAX_HANDLERS);
    if input[a].index != 0 {
      var j := input[a].index;
      assert FixedAt(table, input, a, CLIENT_BASE, MAX_HANDLERS);
      assert FixedSlot(table, input, 0, |input|, p.table, j);
      OccupiedStays(p.table, input, 0, CLIENT_BASE, MAX_HANDLERS, true, j);
    }
  }

  lemma {:induction false} EntriesApart(table: seq<Entry>, input: seq<Entry>, a: nat, b: nat)
    requires IsTable(table) && a < b < |input|
    requires var p := First(table, input); p.ok && Second(p.table, p.input).ok
    ensures var p := First(table, input);
            var q := Second(p.table, p.input);
            q.input[a].index != q.input[b].index
  {
    var p := First(table, input);
    FixedPass(table, input, 0, CLIENT_BASE, MAX_HANDLERS);
    var q := Second(p.table, input);
    DontCarePass(p.table, input, 0, CLIENT_BASE, MAX_HANDLERS);
    assert Given(p.table, input, 0, q, a, CLIENT_BASE, MAX_HANDLERS) && Given(p.table, input, 0, q, b, CLIENT_BASE, MAX_HANDLERS);
    if input[a].index != 0 && input[b].index != 0 {
      assert Apart(input, a, b);
    } else if input[a].index != 0 {
      assert FixedAt(table, input, a, CLIENT_BASE, MAX_HANDLERS) && FixedSlot(table, input, 0, |input|, p.table, input[a].index);
    } else if input[b].index != 0 {
      assert FixedAt(table, input, b, CLIENT_BASE, MAX_HANDLERS) && FixedSlot(table, input, 0, |input|, p.table, input[b].index);
    } else {
      MineCountSplit(input, 0, a, b);
    }
  }

  lemma {:induction false} MineCountSplit(input: seq<Entry>, from: nat, mid: nat, to: nat)
    requires from <= mid < to <= |input| && input[mid].index == 0
    ensures MineCount(input, from, to, true) > MineCount(input, from, mid, true)
    decreases |input| - from
  {
    if from < mid { MineCountSplit(input, from + 1, mid, to); }
  }

  lemma {:induction false} DontCareTakes(table: seq<Entry>, input: seq<Entry>, i: nat, low: nat, high: nat)
    requires i <= |input| && 1 <= low <= high <= |table|
    ensures var r := Pass(table, input, i, low, high, true);
            FreeCount(r.table, low, high) == FreeCount(table, low, high) - r.count
    decreases |input| - i
  {
    if i < |input| {
      if !Mine(input[i], true) {
        DontCareTakes(table, input, i + 1, low, high);
      } else {
        var k := TopFree(table, low, high);
        if k >= low {
          var e := input[i].(index := k);
          DontCareTakes(table[k := e], input[i := e], i + 1, low, high);
          FreeCountTake(table, k, e, low, high);
        }
      }
    }
  }

  /** The k-th don't-care entry (counting from 0) gets the one slot that has exactly k
      free slots above it once the fixed entries are in. */
  lemma {:induction false} DontCareGetsKthHighest(table: seq<Entry>, input: seq<Entry>, maxArgs: nat, a: nat)
    requires IsTable(table) && a < |input| && input[a].index == 0
    requires Client(table, Entries(input), maxArgs).status == Ok
    ensures var t, rank, got := First(table, input).table, MineCount(input, 0, a, true), Client(table, Entries(input), maxArgs).entries[a].index;
            && RankedFree(t, got, rank, CLIENT_BASE, MAX_HANDLERS)
            && forall j :: RankedFree(t, j, rank, CLIENT_BASE, MAX_HANDLERS) ==> j == got
  {
    FixedPass(table, input, 0, CLIENT_BASE, MAX_HANDLERS);
    var p := First(table, input);
    DontCarePass(p.table, input, 0, CLIENT_BASE, MAX_HANDLERS);
    assert Given(p.table, input, 0, Second(p.table, input), a, CLIENT_BASE, MAX_HANDLERS);
    var rank, got := MineCount(input, 0, a, true), Client(table, Entries(input), maxArgs).entries[a].index;
    forall j | RankedFree(p.table, j, rank, CLIENT_BASE, MAX_HANDLERS) ensures j == got {
      RankIsUnique(p.table, j, got, rank, CLIENT_BASE, MAX_HANDLERS);
    }
  }

  /** A refused call keeps what it had installed before the entry that failed. */
  lemma {:induction false} RefusedCallKeepsPrefix(table: seq<Entry>, input: seq<Entry>, maxArgs: nat)
    requires IsTable(table) && Client(table, Entries(input), maxArgs).status == Resource
    ensures var r := Client(table, Entries(input), maxArgs);
            var p := First(table, input);
            if !p.ok then
              && p.stop < |input| && !Fits(table, input)
              && r.table == First(table, input[..p.stop]).table && First(table, input[..p.stop]).ok
              && r.entries == input
            else
              var q := Second(p.table, input);
              && q.stop < |input| && input[q.stop].index == 0 && FreeSlots(r.table) == 0
              && r.table == Second(p.table, input[..q.stop]).table && Second(p.table, input[..q.stop]).ok
              && r.entries[q.stop..] == input[q.stop..]
  {
    var p := First(table, input);
    FixedPass(table, input, 0, CLIENT_BASE, MAX_HANDLERS);
    FailureInstallsPrefix(table, input, 0, CLIENT_BASE, MAX_HANDLERS, false);
    if p.ok {
      FailureInstallsPrefix(p.table, input, 0, CLIENT_BASE, MAX_HANDLERS, true);
      FailsWhenFull(p.table, input, 0, CLIENT_BASE, MAX_HANDLERS);
    }
  }

  lemma {:induction false} FailsWhenFull(table: seq<Entry>, input: seq<Entry>, i: nat, low: nat, high: nat)
    requires i <= |input| && 1 <= low <= high <= |table|
    ensures var r := Pass(table, input, i, low, high, true);
            !r.ok ==> input[r.stop].index == 0 && FreeCount(r.table, low, high) == 0
    decreases |input| - i
  {
    if i < |input| {
      if !Mine(input[i], true) {
        FailsWhenFull(table, input, i + 1, low, high);
      } else {
        TopIsRankZero(table, low, high);
        var k := TopFree(table, low, high);
        if k >= low {
          var e := input[i].(index := k);
          FailsWhenFull(table[k := e], input[i := e], i + 1, low, high);
        }
      }
    }
  }

  // ----- determinism across processes -------------------------------------

  /** Same index column; function pointers, flags, names and data may differ. */
  predicate SameIndices(a: seq<Entry>, b: seq<Entry>) {
    |a| == |b| && forall j :: 0 <= j < |a| ==> a[j].index == b[j].index
  }

  lemma {:induction false} TopFreeDeterministic(s: seq<Entry>, t: seq<Entry>, low: int, high: int)
    requires SameIndices(s, t) && low <= high <= |s|
    ensures TopFree(s, low, high) == TopFree(t, low, high)
    decreases high - low
  {
    if low < high {
      assert 0 <= high - 1 ==> s[high - 1].index == t[high - 1].index;
      TopFreeDeterministic(s, t, low, high - 1);
    }
  }

  lemma {:induction false} PassDeterministic(s: seq<Entry>, t: seq<Entry>, x: seq<Entry>, y: seq<Entry>,
                                             i: nat, low: nat, high: nat, dontcare: bool)
    requires SameIndices(s, t) && SameIndices(x, y) && i <= |x| && 1 <= low <= high <= |s|
    ensures var r, q := Pass(s, x, i, low, high, dontcare), Pass(t, y, i, low, high, dontcare);
            r.ok == q.ok && r.stop == q.stop && r.count == q.count && SameIndices(r.table, q.table) && SameIndices(r.input, q.input)
    decreases |x| - i
  {
    if i < |x| {
      if !Mine(x[i], dontcare) {
        PassDeterministic(s, t, x, y, i + 1, low, high, dontcare);
      } else {
        TopFreeDeterministic(s, t, low, high);
        var k := if dontcare then TopFree(s, low, high) else x[i].index;
        if low <= k < high && s[k].index == 0 {
          var e, f := x[i].(index := k), y[i].(index := k);
          PassDeterministic(s[k := e], t[k := f], x[i := e], y[i := f], i + 1, low, high, dontcare);
        }
      }
    }
  }

  /** A call in one process and the matching call in another: both tables pass
      validation or neither does, and they agree on the index column. */
  predicate Matching(x: Input, y: Input, maxArgs: nat) {
    match (x, y)
    case (Null(m), Null(n)) => m == n
    case (Entries(a), Entries(b)) => SameIndices(a, b) && (ValidTable(a, maxArgs) <==> ValidTable(b, maxArgs))
    case _ => false
  }

  predicate Agree(r: Outcome, q: Outcome) { r.status == q.status && SameIndices(r.entries, q.entries) }

  predicate AgreeAt(r: seq<Outcome>, q: seq<Outcome>, j: int) { 0 <= j < |r| && j < |q| && Agree(r[j], q[j]) }

  lemma {:induction false} ClientDeterministic(s: seq<Entry>, t: seq<Entry>, x: Input, y: Input, maxArgs: nat)
    requires IsTable(s) && SameIndices(s, t) && Matching(x, y, maxArgs)
    ensures var r, q := Client(s, x, maxArgs), Client(t, y, maxArgs);
            Agree(r, q) && SameIndices(r.table, q.table)
  {
    if x.Entries? {
      PassDeterministic(s, t, x.entries, y.entries, 0, CLIENT_BASE, MAX_HANDLERS, false);
      var p, p' := First(s, x.entries), First(t, y.entries);
      PassDeterministic(p.table, p'.table, p.input, p'.input, 0, CLIENT_BASE, MAX_HANDLERS, true);
    }
  }

  // ----- sequences of calls ------------------------------------------------

  /** The outcomes of a sequence of calls on one endpoint. */
  function Calls(table: seq<Entry>, inputs: seq<Input>, maxArgs: nat): (rs: seq<Outcome>)
    requires IsTable(table)
    ensures |rs| == |inputs| && forall j :: 0 <= j < |rs| ==> IsTable(rs[j].table)
    decreases |inputs|
  {
    if inputs == [] then []
    else
      var r := Client(table, inputs[0], maxArgs);
      [r] + Calls(r.table, inputs[1..], maxArgs)
  }

  function Final(table: seq<Entry>, inputs: seq<Input>, maxArgs: nat): (t: seq<Entry>)
    requires IsTable(table)
    ensures IsTable(t)
  {
    if inputs == [] then table else Calls(table, inputs, maxArgs)[|inputs| - 1].table
  }

  lemma {:induction false} FinalStep(table: seq<Entry>, inputs: seq<Input>, maxArgs: nat)
    requires IsTable(table) && inputs != []
    ensures Final(table, inputs, maxArgs) == Final(Client(table, inputs[0], maxArgs).table, inputs[1..], maxArgs)
  {
    if |inputs| > 1 {
      var r := Client(table, inputs[0], maxArgs);
      var rest := Calls(r.table, inputs[1..], maxArgs);
      assert Calls(table, inputs, maxArgs)[|inputs| - 1] == rest[|inputs| - 2];
    }
  }

  predicate MatchingAt(xs: seq<Input>, ys: seq<Input>, j: int, maxArgs: nat)
    requires |xs| == |ys| && 0 <= j < |xs|
  {
    Matching(xs[j], ys[j], maxArgs)
  }

  /** Two endpoints that make matching calls end with the same assignments and the
      same occupancy, whatever the handlers are and whichever calls fail. */
  lemma {:induction false} CallsDeterministic(s: seq<Entry>, t: seq<Entry>, xs: seq<Input>, ys: seq<Input>, maxArgs: nat)
    requires IsTable(s) && SameIndices(s, t) && |xs| == |ys|
    requires forall j :: 0 <= j < |xs| ==> MatchingAt(xs, ys, j, maxArgs)
    ensures SameIndices(Final(s, xs, maxArgs), Final(t, ys, maxArgs))
    ensures forall j :: 0 <= j < |xs| ==> AgreeAt(Calls(s, xs, maxArgs), Calls(t, ys, maxArgs), j)
    decreases |xs|
  {
    if xs != [] {
      assert MatchingAt(xs, ys, 0, maxArgs);
      ClientDeterministic(s, t, xs[0], ys[0], maxArgs);
      forall j | 0 <= j < |xs| - 1 ensures MatchingAt(xs[1..], ys[1..], j, maxArgs) {
        assert MatchingAt(xs, ys, j + 1, maxArgs);
      }
      var s', t' := Client(s, xs[0], maxArgs).table, Client(t, ys[0], maxArgs).table;
      CallsDeterministic(s', t', xs[1..], ys[1..], maxArgs);
      FinalStep(s, xs, maxArgs);
      FinalStep(t, ys, maxArgs);
      var r, q := Calls(s, xs, maxArgs), Calls(t, ys, maxArgs);
      var r', q' := Calls(s', xs[1..], maxArgs), Calls(t', ys[1..], maxArgs);
      forall j | 0 <= j < |xs| ensures AgreeAt(r, q, j) {
        if j > 0 { assert AgreeAt(r', q', j - 1); }
      }
    }
  }

  /** Slot j keeps its place: it is free or says its own number. */
  predicate SlotOk(table: seq<Entry>, j: nat)
    requires j < |table|
  {
    table[j].index == 0 || table[j].index == j
  }

  lemma {:induction false} ClientMonotone(table: seq<Entry>, x: Input, maxArgs: nat, j: nat)
    requires IsTable(table) && j < MAX_HANDLERS && SlotOk(table, j)
    ensures var t := Client(table, x, maxArgs).table;
            && (table[j].index != 0 || j < CLIENT_BASE ==> t[j] == table[j])
            && SlotOk(t, j)
  {
    if x.Entries? {
      var p := First(table, x.entries);
      OccupiedStays(table, x.entries, 0, CLIENT_BASE, MAX_HANDLERS, false, j);
      OccupiedStays(p.table, p.input, 0, CLIENT_BASE, MAX_HANDLERS, true, j);
    }
  }

  /** Over any calls, successful or not: an occupied slot never changes, slots
      outside the client range are untouched, and every slot is free or holds its
      own number. */
  lemma {:induction false} CallsMonotone(table: seq<Entry>, xs: seq<Input>, maxArgs: nat, j: nat)
    requires IsTable(table) && j < MAX_HANDLERS && SlotOk(table, j)
    ensures var t := Final(table, xs, maxArgs);
            && (table[j].index != 0 || j < CLIENT_BASE ==> t[j] == table[j])
            && SlotOk(t, j)
    decreases |xs|
  {
    if xs != [] {
      ClientMonotone(table, xs[0], maxArgs, j);
      CallsMonotone(Client(table, xs[0], maxArgs).table, xs[1..], maxArgs, j);
      FinalStep(table, xs, maxArgs);
    }
  }

  /** Once a call has succeeded its entries stay callable at their indices through
      every later call. */
  lemma {:induction false} RegistrationIsForever(table: seq<Entry>, input: seq<Entry>, later: seq<Input>, maxArgs: nat, a: nat)
    requires IsTable(table) && a < |input| && forall j :: 0 <= j < MAX_HANDLERS ==> SlotOk(table, j)
    requires Client(table, Entries(input), maxArgs).status == Ok
    ensures var r := Client(table, Entries(input), maxArgs);
            Installed(Final(r.table, later, maxArgs), r.entries[a])
  {
    ClientSucceedsIffFits(table, input, maxArgs);
    var r := Client(table, Entries(input), maxArgs);
    assert Installed(r.table, r.entries[a]);
    CallsMonotone(r.table, later, maxArgs, r.entries[a].index);
  }

  // ----- the legacy wrapper -----------------------------------------------

  datatype LegacyEntry = LegacyEntry(index: nat, fnptr: int)

  function ToEx(e: LegacyEntry): (r: Entry)
    ensures LegacyOk(r)
  {
    Entry(e.index, e.fnptr, FLAG_ANY | FLAG_LEGACY, NARGS_UNKNOWN, 0, "")
  }

  function ToExAll(legacy: seq<LegacyEntry>): (r: seq<Entry>)
    ensures |r| == |legacy| && forall j :: 0 <= j < |r| ==> r[j] == ToEx(legacy[j])
  {
    seq(|legacy|, j requires 0 <= j < |legacy| => ToEx(legacy[j]))
  }

  /** A legacy table of acceptable size always passes validation. */
  lemma {:induction false} LegacyTablesAreValid(legacy: seq<LegacyEntry>, maxArgs: nat)
    ensures ValidTable(ToExAll(legacy), maxArgs)
  {
  }

  /** The legacy call as the caller sees it: new indices on success, its own table
      untouched otherwise. */
  function Legacy(table: seq<Entry>, legacy: seq<LegacyEntry>, maxArgs: nat): (r: (Status, seq<Entry>, seq<LegacyEntry>))
    requires IsTable(table)
    ensures IsTable(r.1) && |r.2| == |legacy|
    ensures forall j :: 0 <= j < |legacy| ==> r.2[j].fnptr == legacy[j].fnptr
  {
    if |legacy| == 0 then (Ok, table, legacy)
    else if |legacy| > MAX_HANDLERS - CLIENT_BASE then (BadArg, table, legacy)
    else
      var c := Client(table, Entries(ToExAll(legacy)), maxArgs);
      if c.status == Ok && |c.entries| == |legacy|
      then (Ok, c.table, seq(|legacy|, j requires 0 <= j < |legacy| => LegacyEntry(c.entries[j].index, legacy[j].fnptr)))
      else (Resource, c.table, legacy)
  }

  /** Whether a table fits depends on its index column alone. */
  lemma {:induction false} FitsByIndices(table: seq<Entry>, x: seq<Entry>, y: seq<Entry>)
    requires IsTable(table) && SameIndices(x, y) && 0 < |x|
    ensures Fits(table, x) <==> Fits(table, y)
  {
    MineCountByIndices(x, y, 0, true);
    MineCountByIndices(x, y, 0, false);
    if FixedOk(table, x, 0, CLIENT_BASE, MAX_HANDLERS) { FixedOkByIndices(table, x, y); }
    if FixedOk(table, y, 0, CLIENT_BASE, MAX_HANDLERS) { FixedOkByIndices(table, y, x); }
  }

  lemma {:induction false} MineCountByIndices(x: seq<Entry>, y: seq<Entry>, from: nat, dontcare: bool)
    requires SameIndices(x, y) && from <= |x|
    ensures MineCount(x, from, |x|, dontcare) == MineCount(y, from, |y|, dontcare)
    decreases |x| - from
  {
    if from < |x| { MineCountByIndices(x, y, from + 1, dontcare); }
  }

  lemma {:induction false} FixedOkByIndices(table: seq<Entry>, x: seq<Entry>, y: seq<Entry>)
    requires SameIndices(x, y) && FixedOk(table, x, 0, CLIENT_BASE, MAX_HANDLERS)
    ensures FixedOk(table, y, 0, CLIENT_BASE, MAX_HANDLERS)
  {
    forall a | 0 <= a < |y| ensures FixedAt(table, y, a, CLIENT_BASE, MAX_HANDLERS) {
      assert FixedAt(table, x, a, CLIENT_BASE, MAX_HANDLERS);
    }
    forall a, b | 0 <= a < b < |y| ensures Apart(y, a, b) {
      assert Apart(x, a, b);
    }
  }

  /** The legacy index column. */
  predicate IndicesOf(legacy: seq<LegacyEntry>, x: seq<Entry>) {
    |x| == |legacy| && forall j :: 0 <= j < |x| ==> x[j].index == legacy[j].index
  }

  /** Handler f sits at slot k, for calls of every arity, category and role. */
  ghost predicate Callable(table: seq<Entry>, k: nat, f: int) {
    && CLIENT_BASE <= k < MAX_HANDLERS && k < |table|
    && table[k].index == k && table[k].fnptr == f && table[k].nargs == NARGS_UNKNOWN && table[k].cdata == 0
    && forall nargs, c, isReq :: CallOk(table[k], nargs, c, isReq)
  }

  /** The wrapper succeeds exactly when its index column fits, whatever else a table
      with that column holds; on success the handler of every entry is callable in
      every way at the index written back, which is the one asked for if one was; on
      failure the caller's table is what it was. */
  lemma {:induction false} LegacyContract(table: seq<Entry>, legacy: seq<LegacyEntry>, maxArgs: nat, x: seq<Entry>)
    requires IsTable(table) && 0 < |legacy| <= MAX_HANDLERS - CLIENT_BASE && IndicesOf(legacy, x)
    ensures var (status, t, l) := Legacy(table, legacy, maxArgs);
            && (status == Ok <==> Fits(table, x))
            && (status == Ok || (status == Resource && l == legacy))
            && (status == Ok ==> forall j :: 0 <= j < |legacy| ==>
                  Callable(t, l[j].index, legacy[j].fnptr) && l[j].fnptr == legacy[j].fnptr
                  && (legacy[j].index != 0 ==> l[j].index == legacy[j].index))
  {
    LegacyTablesAreValid(legacy, maxArgs);
    ClientSucceedsIffFits(table, ToExAll(legacy), maxArgs);
    FitsByIndices(table, ToExAll(legacy), x);
    var c := Client(table, Entries(ToExAll(legacy)), maxArgs);
    var (status, t, l) := Legacy(table, legacy, maxArgs);
    if status == Ok {
      forall j | 0 <= j < |legacy|
        ensures Callable(t, l[j].index, legacy[j].fnptr) && l[j].fnptr == legacy[j].fnptr
        ensures legacy[j].index != 0 ==> l[j].index == legacy[j].index
      {
        assert Installed(c.table, c.entries[j]) && SameHandler(c.entries[j], ToExAll(legacy)[j]);
        LegacyIsCallable(c.entries[j]);
      }
    }
  }

  lemma {:induction false} LegacyIsCallable(e: Entry)
    requires LegacyOk(e)
    ensures forall nargs, c, isReq :: CallOk(e, nargs, c, isReq)
  {
    assert e.flags & 0x1f == 0x1f by { LegacyHasAllFlags(e.flags); }
    forall nargs, c, isReq ensures CallOk(e, nargs, c, isReq) { WildcardAcceptsAll(e, nargs, c, isReq); }
  }

  lemma {:induction false} LegacyHasAllFlags(flags: bv32)
    requires flags == FLAG_ANY | FLAG_LEGACY
    ensures flags & 0x1f == 0x1f
  {
  }

  // ----- calls that are turned down --------------------------------------------------

  /** Every call that gets no further than its arguments leaves the table alone: an
      empty one is fine, null or more than 128 entries are bad arguments, and a table
      that does not validate is fatal; nothing else has these outcomes. */
  lemma {:induction false} ClientArguments(table: seq<Entry>, x: Input, maxArgs: nat)
    requires IsTable(table)
    ensures var r := Client(table, x, maxArgs);
            var n := if x.Null? then x.claimed else |x.entries|;
            && (n == 0 ==> r.status == Ok)
            && (r.status == BadArg <==> n > 128 || (x.Null? && n != 0))
            && (r.status == Fatal <==> x.Entries? && 0 < n <= 128 && !ValidTable(x.entries, maxArgs))
            && (n == 0 || r.status == BadArg || r.status == Fatal ==>
                  r.table == table && r.numreg1 == 0 && r.numreg2 == 0 && (x.Entries? ==> r.entries == x.entries))
  {
  }

  lemma {:induction false} LegacyArguments(table: seq<Entry>, legacy: seq<LegacyEntry>, maxArgs: nat)
    requires IsTable(table)
    ensures var r := Legacy(table, legacy, maxArgs);
            && (|legacy| == 0 ==> r == (Ok, table, legacy))
            && (r.0 == BadArg <==> |legacy| > 128)
            && (r.0 == BadArg ==> r == (BadArg, table, legacy))
            && r.0 != Fatal
  {
  }
}
