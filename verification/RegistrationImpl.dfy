/** Registration as it works in place: on the endpoint's table and on the caller's
    own entries. */
module RegistrationImpl {
  import opened Dispatch
  import opened RegistrationSpec
  import opened Registration

  const DEFAULT_HANDLER: int := -1
  const DEFAULT_NAME: string := "gasneti_defaultAMHandler"

  function DefaultEntry(i: nat): Entry { Entry(0, DEFAULT_HANDLER, FLAG_ANY, NARGS_UNKNOWN, i, DEFAULT_NAME) }

  /** A slot nobody has taken is marked free, and catches calls of every kind with
      the default handler, which finds the slot's number in its data. */
  lemma {:induction false} DefaultCatchesAll(i: nat, nargs: nat, c: Category, isReq: bool)
    ensures var e := DefaultEntry(i);
            e.index == 0 && e.fnptr == DEFAULT_HANDLER && e.cdata == i && CallOk(e, nargs, c, isReq)
  {
    WildcardAcceptsAll(DefaultEntry(i), nargs, c, isReq);
  }

  /** What is still to do from entry i on completes the whole pass. */
  ghost predicate Remains(whole: PassResult, done: nat, table: seq<Entry>, input: seq<Entry>, i: nat, low: nat, high: nat, dontcare: bool)
    requires i <= |input| && 1 <= low <= high <= |table|
  {
    var r := Pass(table, input, i, low, high, dontcare);
    whole == r.(count := done + r.count)
  }

  lemma {:induction false} SkipRemains(whole: PassResult, done: nat, table: seq<Entry>, input: seq<Entry>, i: nat, low: nat, high: nat, dontcare: bool)
    requires i < |input| && 1 <= low <= high <= |table| && !Mine(input[i], dontcare)
    requires Remains(whole, done, table, input, i, low, high, dontcare)
    ensures Remains(whole, done, table, input, i + 1, low, high, dontcare)
  {
  }

  lemma {:induction false} TakeRemains(whole: PassResult, done: nat, table: seq<Entry>, input: seq<Entry>, i: nat, low: nat, high: nat, dontcare: bool, k: nat)
    requires i < |input| && 1 <= low <= high <= |table| && Mine(input[i], dontcare)
    requires k == if dontcare then TopFree(table, low, high) else input[i].index
    requires low <= k < high && table[k].index == 0
    requires Remains(whole, done, table, input, i, low, high, dontcare)
    ensures var e := input[i].(index := k);
            Remains(whole, done + 1, table[k := e], input[i := e], i + 1, low, high, dontcare)
  {
  }

  class Endpoint {
    const amtbl: array<Entry>

    ghost predicate Valid() { amtbl.Length == MAX_HANDLERS }

    /** gasneti_amtbl_init */
    constructor ()
      ensures Valid() && fresh(amtbl)
      ensures forall j :: 0 <= j < MAX_HANDLERS ==> amtbl[j] == DefaultEntry(j) && SlotOk(amtbl[..], j)
      ensures FreeSlots(amtbl[..]) == MAX_HANDLERS - CLIENT_BASE
    {
      amtbl := new Entry[MAX_HANDLERS](_ => DefaultEntry(0));
      new;
      var i := 0;
      while i < MAX_HANDLERS
        invariant 0 <= i <= MAX_HANDLERS
        invariant forall j :: 0 <= j < i ==> amtbl[j] == DefaultEntry(j)
      {
        amtbl[i] := DefaultEntry(i);
        i := i + 1;
      }
      AllFree(amtbl[..], CLIENT_BASE);
    }

    /** The inner loop: the highest free slot, found from the top down. */
    method FindTop(low: nat, high: nat) returns (newindex: int)
      requires Valid() && 1 <= low <= high <= MAX_HANDLERS
      ensures newindex == TopFree(amtbl[..], low, high)
    {
      newindex := high - 1;
      while newindex >= low && amtbl[newindex].index != 0
        invariant low - 1 <= newindex < high
        invariant TopFree(amtbl[..], low, newindex + 1) == TopFree(amtbl[..], low, high)
      {
        newindex := newindex - 1;
      }
    }

    /** The slot for an entry that asks for `wanted` (0: don't care), unless there is
        none left, it is out of range, or it is taken. */
    method Choose(wanted: nat, low: nat, high: nat) returns (usable: bool, newindex: nat)
      requires Valid() && 1 <= low <= high <= MAX_HANDLERS
      ensures var k: int := if wanted == 0 then TopFree(amtbl[..], low, high) else wanted;
              usable == (low <= k < high && amtbl[k].index == 0) && (usable ==> newindex == k)
    {
      newindex := wanted;
      if wanted == 0 {
        var top := FindTop(low, high);
        if top < low { return false, 0; }
        newindex := top;
      }
      if newindex < low || newindex >= high { return false, 0; }
      if amtbl[newindex].index != 0 { return false, 0; }
      return true, newindex;
    }

    /** gasneti_amregister: one pass over the caller's entries. */
    method AmRegister(input: array<Entry>, low: nat, high: nat, dontcare: bool, maxArgs: nat)
      returns (status: Status, numregistered: nat)
      requires Valid() && input != amtbl && 1 <= low <= high <= MAX_HANDLERS
      modifies amtbl, input
      ensures !ValidTable(old(input[..]), maxArgs) ==>
                status == Fatal && numregistered == 0 && amtbl[..] == old(amtbl[..]) && input[..] == old(input[..])
      ensures ValidTable(old(input[..]), maxArgs) ==>
                var r := Pass(old(amtbl[..]), old(input[..]), 0, low, high, dontcare);
                && status == (if r.ok then Ok else BadArg) && numregistered == r.count
                && amtbl[..] == r.table && input[..] == r.input
    {
      numregistered := 0;
      var valid := AmValidate(input, input.Length, maxArgs);
      assert input[..input.Length] == input[..];
      if !valid { return Fatal, 0; }
      status, numregistered := RegisterValidated(input, low, high, dontcare);
    }

    method RegisterValidated(input: array<Entry>, low: nat, high: nat, dontcare: bool)
      returns (status: Status, numregistered: nat)
      requires Valid() && input != amtbl && 1 <= low <= high <= MAX_HANDLERS
      modifies amtbl, input
      ensures var r := Pass(old(amtbl[..]), old(input[..]), 0, low, high, dontcare);
              && status == (if r.ok then Ok else BadArg) && numregistered == r.count
              && amtbl[..] == r.table && input[..] == r.input
    {
      ghost var whole := Pass(amtbl[..], input[..], 0, low, high, dontcare);
      numregistered := 0;
      var i: nat := 0;
      while i < input.Length
        invariant i <= input.Length
        invariant Remains(whole, numregistered, amtbl[..], input[..], i, low, high, dontcare)
      {
        ghost var t, x := amtbl[..], input[..];
        if (input[i].index == 0) != dontcare {
          SkipRemains(whole, numregistered, t, x, i, low, high, dontcare);
          i := i + 1;
          continue;
        }
        var usable, newindex := Choose(input[i].index, low, high);
        if !usable { return BadArg, numregistered; }
        TakeRemains(whole, numregistered, t, x, i, low, high, dontcare, newindex);
        ghost var e := input[i].(index := newindex);
        if dontcare { input[i] := input[i].(index := newindex); }
        amtbl[newindex] := input[i];
        assert amtbl[..] == t[newindex := e] && input[..] == x[i := e];
        numregistered := numregistered + 1;
        i := i + 1;
      }
      return Ok, numregistered;
    }

    /** gasneti_amregister_client */
    method AmRegisterClient(input: array?<Entry>, numentries: nat, maxArgs: nat) returns (status: Status)
      requires Valid() && input != amtbl && (input != null ==> input.Length == numentries)
      modifies amtbl, input
      ensures var x := if input == null then Null(numentries) else Entries(old(input[..]));
              var r := Client(old(amtbl[..]), x, maxArgs);
              && status == r.status && amtbl[..] == r.table
              && (input != null ==> input[..] == r.entries)
    {
      if numentries == 0 { return Ok; }
      if numentries > MAX_HANDLERS - CLIENT_BASE { return BadArg; }
      if input == null { return BadArg; }
      ghost var table0, input0 := amtbl[..], input[..];
      var numreg1, numreg2;
      status, numreg1 := AmRegister(input, CLIENT_BASE, MAX_HANDLERS, false, maxArgs);
      if status == Fatal { return; }
      if status != Ok { return Resource; }
      FixedPass(table0, input0, 0, CLIENT_BASE, MAX_HANDLERS);
      status, numreg2 := AmRegister(input, CLIENT_BASE, MAX_HANDLERS, true, maxArgs);
      if status != Ok { return Resource; }
      ClientSucceedsIffFits(table0, input0, maxArgs);
      assert numreg1 + numreg2 == numentries;
      return Ok;
    }

    /** gasneti_amregister_legacy */
    method AmRegisterLegacy(table: array?<LegacyEntry>, numentries: int, maxArgs: nat) returns (status: Status)
      requires Valid() && (table != null && numentries >= 0 ==> table.Length == numentries)
      modifies amtbl, table
      ensures numentries < 0 || (table == null && numentries > 0) ==>
                status == BadArg && amtbl[..] == old(amtbl[..]) && (table != null ==> table[..] == old(table[..]))
      ensures numentries == 0 ==> status == Ok && amtbl[..] == old(amtbl[..])
      ensures numentries >= 0 && table != null ==>
                (status, amtbl[..], table[..]) == Legacy(old(amtbl[..]), old(table[..]), maxArgs)
    {
      if numentries == 0 { return Ok; }
      if numentries > MAX_HANDLERS - CLIENT_BASE { return BadArg; }
      if numentries < 0 { return BadArg; }
      if table == null { return BadArg; }
      var extable := new Entry[numentries](_ => ToEx(LegacyEntry(0, 0)));
      var i := 0;
      while i < numentries
        invariant 0 <= i <= numentries
        invariant forall j :: 0 <= j < i ==> extable[j] == ToEx(table[j])
        invariant amtbl[..] == old(amtbl[..]) && table[..] == old(table[..])
      {
        extable[i] := Entry(table[i].index, table[i].fnptr, FLAG_ANY | FLAG_LEGACY, NARGS_UNKNOWN, 0, "");
        i := i + 1;
      }
      assert extable[..] == ToExAll(old(table[..]));
      LegacyTablesAreValid(old(table[..]), maxArgs);
      ghost var c := Client(amtbl[..], Entries(extable[..]), maxArgs);
      status := AmRegisterClient(extable, numentries, maxArgs);
      if status != Ok { return Resource; }
      i := 0;
      while i < numentries
        invariant 0 <= i <= numentries
        invariant extable[..] == c.entries && amtbl[..] == c.table
        invariant forall j :: 0 <= j < i ==> table[j] == LegacyEntry(extable[j].index, old(table[j].fnptr))
        invariant forall j :: i <= j < numentries ==> table[j] == old(table[j])
      {
        table[i] := table[i].(index := extable[i].index);
        i := i + 1;
      }
      ghost var want := Legacy(old(amtbl[..]), old(table[..]), maxArgs);
      assert want.0 == Ok;
      assert table[..] == want.2;
      return Ok;
    }
  }

  lemma {:induction false} AllFree(table: seq<Entry>, lo: nat)
    requires IsTable(table) && lo <= MAX_HANDLERS
    requires forall j :: 0 <= j < MAX_HANDLERS ==> table[j] == DefaultEntry(j)
    ensures FreeCount(table, lo, MAX_HANDLERS) == MAX_HANDLERS - lo
    decreases MAX_HANDLERS - lo
  {
    if lo < MAX_HANDLERS {
      assert table[lo] == DefaultEntry(lo);
      AllFree(table, lo + 1);
    }
  }
}
