/** Handler table entries: what registration accepts, and which calls a
    registered entry accepts. */
module Dispatch {

  datatype Category = Short | Medium | Long

  datatype Entry = Entry(index: nat, fnptr: int, flags: bv32, nargs: nat, cdata: int, name: string)

  const FLAG_SHORT: bv32 := 1
  const FLAG_MEDIUM: bv32 := 2
  const FLAG_LONG: bv32 := 4
  const FLAG_REQUEST: bv32 := 8
  const FLAG_REPLY: bv32 := 16
  const FLAG_ANY: bv32 := 31
  const FLAG_LEGACY: bv32 := 0x8000_0000
  const NARGS_UNKNOWN: nat := 255

  /** The first entry decides that a table is the internal legacy kind. */
  predicate LooksLegacy(e: Entry) { e.nargs == NARGS_UNKNOWN || e.flags & FLAG_LEGACY != 0 }

  predicate LegacyOk(e: Entry) { e.nargs == NARGS_UNKNOWN && e.flags == FLAG_ANY | FLAG_LEGACY }

  predicate NormalOk(e: Entry, maxArgs: nat) {
    var category := e.flags & (FLAG_SHORT | FLAG_MEDIUM | FLAG_LONG);
    && e.nargs <= maxArgs
    && e.flags & (FLAG_REQUEST | FLAG_REPLY) != 0
    && category != 0
    && category != FLAG_SHORT | FLAG_MEDIUM | FLAG_LONG
    && category != FLAG_SHORT | FLAG_MEDIUM
    && category != FLAG_SHORT | FLAG_LONG
  }

  predicate ValidTable(table: seq<Entry>, maxArgs: nat) {
    table == [] ||
    if LooksLegacy(table[0]) then forall i :: 0 <= i < |table| ==> LegacyOk(table[i])
    else forall i :: 0 <= i < |table| ==> NormalOk(table[i], maxArgs)
  }

  /** gasneti_am_validate; false is the fatal error. */
  method AmValidate(table: array<Entry>, numentries: nat, maxArgs: nat) returns (ok: bool)
    requires numentries <= table.Length
    ensures ok == ValidTable(table[..numentries], maxArgs)
  {
    ok := true;
    if numentries == 0 { return; }
    var legacy := table[0].nargs == NARGS_UNKNOWN || table[0].flags & FLAG_LEGACY != 0;
    var i := 0;
    while i < numentries
      invariant 0 <= i <= numentries
      invariant forall j :: 0 <= j < i ==> if legacy then LegacyOk(table[j]) else NormalOk(table[j], maxArgs)
    {
      if legacy {
        if table[i].nargs != NARGS_UNKNOWN { assert !LegacyOk(table[..numentries][i]); return false; }
        if table[i].flags != FLAG_ANY | FLAG_LEGACY { assert !LegacyOk(table[..numentries][i]); return false; }
      } else {
        var fine := table[i].nargs <= maxArgs;
        if table[i].flags & (FLAG_REQUEST | FLAG_REPLY) == 0 { fine := false; }
        var category := table[i].flags & (FLAG_SHORT | FLAG_MEDIUM | FLAG_LONG);
        if category == 0 || category == FLAG_SHORT | FLAG_MEDIUM | FLAG_LONG
           || category == FLAG_SHORT | FLAG_MEDIUM || category == FLAG_SHORT | FLAG_LONG { fine := false; }
        if !fine { assert !NormalOk(table[..numentries][i], maxArgs); return false; }
      }
      i := i + 1;
    }
  }

  /** gasneti_amtbl_check: may this entry be invoked like that? */
  predicate CallOk(e: Entry, nargs: nat, category: Category, isReq: bool) {
    && (e.nargs == nargs || e.nargs == NARGS_UNKNOWN)
    && (isReq ==> e.flags & FLAG_REQUEST != 0)
    && (!isReq ==> e.flags & FLAG_REPLY != 0)
    && (category == Short ==> e.flags & FLAG_SHORT != 0)
    && (category == Medium ==> e.flags & FLAG_MEDIUM != 0)
    && (category == Long ==> e.flags & FLAG_LONG != 0)
  }

  // ----- what an entry was registered for, and what it accepts ----------------------

  /** The registration flags, as gex_AM_Entry_t documents them. */
  function CategoryFlag(c: Category): bv32 {
    match c
    case Short => 0x1
    case Medium => 0x2
    case Long => 0x4
  }

  function RoleFlag(isReq: bool): bv32 { if isReq then 0x8 else 0x10 }

  /** Registered for this category. */
  predicate ForCategory(flags: bv32, c: Category) {
    match c
    case Short => flags & 0x1 != 0
    case Medium => flags & 0x2 != 0
    case Long => flags & 0x4 != 0
  }

  /** Registered for this role. */
  predicate ForRole(flags: bv32, isReq: bool) { if isReq then flags & 0x8 != 0 else flags & 0x10 != 0 }

  /** An entry accepts exactly the calls of its own arity, or any arity if that is
      unknown, in the categories and roles it was registered for. */
  lemma {:induction false} AcceptsWhatItIsRegisteredFor(e: Entry, nargs: nat, c: Category, isReq: bool)
    ensures CallOk(e, nargs, c, isReq) <==>
              (nargs == e.nargs || e.nargs == 255) && ForCategory(e.flags, c) && ForRole(e.flags, isReq)
  {
  }

  /** Those bits are the ones a registration sets. */
  lemma {:induction false} ForCategoryMeansFlag(flags: bv32, c: Category)
    ensures ForCategory(flags, c) <==> flags & CategoryFlag(c) != 0
  {
    match c
    case Short => assert CategoryFlag(c) == 0x1;
    case Medium => assert CategoryFlag(c) == 0x2;
    case Long => assert CategoryFlag(c) == 0x4;
  }

  lemma {:induction false} ForRoleMeansFlag(flags: bv32, isReq: bool)
    ensures ForRole(flags, isReq) <==> flags & RoleFlag(isReq) != 0
  {
    assert RoleFlag(isReq) == if isReq then 0x8 else 0x10;
  }

  /** Registered for one category and one role: nothing else is accepted. */
  lemma {:induction false} SingleUse(e: Entry, c: Category, r: bool, nargs: nat, c': Category, r': bool)
    requires e.flags == CategoryFlag(c) | RoleFlag(r) && e.nargs != 255
    ensures CallOk(e, nargs, c', r') <==> nargs == e.nargs && c' == c && r' == r
  {
    SingleBits(c, r, c', r');
  }

  lemma {:induction false} SingleBits(c: Category, r: bool, c': Category, r': bool)
    ensures (CategoryFlag(c) | RoleFlag(r)) & CategoryFlag(c') != 0 <==> c' == c
    ensures (CategoryFlag(c) | RoleFlag(r)) & RoleFlag(r') != 0 <==> r' == r
  {
  }

  /** Unknown arity and all flags: every call is accepted, whatever other bits are set. */
  lemma {:induction false} WildcardAcceptsAll(e: Entry, nargs: nat, c: Category, isReq: bool)
    requires e.nargs == 255 && e.flags & 0x1f == 0x1f
    ensures CallOk(e, nargs, c, isReq)
  {
    AllBits(e.flags);
  }

  lemma {:induction false} AllBits(flags: bv32)
    requires flags & 0x1f == 0x1f
    ensures flags & 0x1 != 0 && flags & 0x2 != 0 && flags & 0x4 != 0 && flags & 0x8 != 0 && flags & 0x10 != 0
  {
  }

  /** Validation accepts a normal entry exactly when its arity is allowed, it has a
      role, and it is for Short alone or for Medium, Long or both. */
  lemma {:induction false} WellFormedIff(e: Entry, maxArgs: nat)
    ensures NormalOk(e, maxArgs) <==>
              && e.nargs <= maxArgs
              && (e.flags & RoleFlag(true) != 0 || e.flags & RoleFlag(false) != 0)
              && (e.flags & CategoryFlag(Short) != 0 <==> e.flags & CategoryFlag(Medium) == 0 && e.flags & CategoryFlag(Long) == 0)
  {
    CategoryBits(e.flags);
    RoleBits(e.flags);
  }

  lemma {:induction false} CategoryBits(flags: bv32)
    ensures flags & 7 != 0 && flags & 7 != 7 && flags & 7 != 3 && flags & 7 != 5
            <==> (flags & 1 != 0 <==> flags & 2 == 0 && flags & 4 == 0)
  {
  }

  lemma {:induction false} RoleBits(flags: bv32)
    ensures flags & 24 != 0 <==> flags & 8 != 0 || flags & 16 != 0
  {
  }

  /** A table is accepted exactly when it is empty, or all legacy, or all normal; the
      legacy kind has unknown arity and every role and category. */
  lemma {:induction false} TableValidIff(table: seq<Entry>, maxArgs: nat)
    requires maxArgs < 255
    ensures ValidTable(table, maxArgs) <==>
              || (forall i :: 0 <= i < |table| ==> table[i].nargs == 255 && table[i].flags == 0x8000_001f)
              || (forall i :: 0 <= i < |table| ==> NormalOk(table[i], maxArgs) && (i == 0 ==> table[i].flags & 0x8000_0000 == 0))
  {
    LegacyFlags();
    if table != [] && LooksLegacy(table[0]) {
      assert NormalOk(table[0], maxArgs) ==> table[0].flags & 0x8000_0000 != 0;
    }
    assert table != [] && !LooksLegacy(table[0]) ==> table[0].nargs != 255;
  }

  lemma {:induction false} LegacyFlags()
    ensures FLAG_ANY | FLAG_LEGACY == 0x8000_001f && 0x8000_001f & FLAG_LEGACY != 0
  {
  }

  /** Every call accepted for a validated non-legacy entry goes through the same
      function type: one arity, and either only Short or only Medium and Long. */
  lemma {:induction false} OneSignature(e: Entry, maxArgs: nat, n1: nat, c1: Category, r1: bool, n2: nat, c2: Category, r2: bool)
    requires NormalOk(e, maxArgs) && maxArgs < NARGS_UNKNOWN
    requires CallOk(e, n1, c1, r1) && CallOk(e, n2, c2, r2)
    ensures n1 == n2 == e.nargs
    ensures c1 == Short <==> c2 == Short
  {
    ShortExcludesPayload(e.flags);
  }

  lemma {:induction false} ShortExcludesPayload(flags: bv32)
    requires flags & 7 != 7 && flags & 7 != 3 && flags & 7 != 5
    ensures !(flags & 1 != 0 && (flags & 2 != 0 || flags & 4 != 0))
  {
  }

  /** A validated entry is callable: some role and some category are accepted. */
  lemma {:induction false} ValidatedIsCallable(e: Entry, maxArgs: nat)
    requires NormalOk(e, maxArgs) || LegacyOk(e)
    ensures exists c, r :: CallOk(e, e.nargs, c, r)
  {
    RoleBit(e.flags);
    CategoryBit(e.flags);
    var r := e.flags & 8 != 0;
    var c := if e.flags & 1 != 0 then Short else if e.flags & 2 != 0 then Medium else Long;
    assert CallOk(e, e.nargs, c, r);
  }

  lemma {:induction false} RoleBit(flags: bv32)
    ensures flags & 24 != 0 ==> flags & 8 != 0 || flags & 16 != 0
    ensures flags == 0x8000_001f ==> flags & 8 != 0 && flags & 7 == 7
  {
  }

  lemma {:induction false} CategoryBit(flags: bv32)
    ensures flags & 7 != 0 ==> flags & 1 != 0 || flags & 2 != 0 || flags & 4 != 0
  {
  }

  /** A validated table is all-legacy or has no entry of unknown arity. */
  lemma {:induction false} LegacyIsAllOrNothing(table: seq<Entry>, maxArgs: nat, i: nat, j: nat)
    requires ValidTable(table, maxArgs) && maxArgs < NARGS_UNKNOWN && i < |table| && j < |table|
    ensures table[i].nargs == NARGS_UNKNOWN <==> table[j].nargs == NARGS_UNKNOWN
    ensures table[i].nargs == NARGS_UNKNOWN ==> LegacyOk(table[j])
  {
    if LooksLegacy(table[0]) {
      assert LegacyOk(table[i]) && LegacyOk(table[j]);
    } else {
      assert NormalOk(table[i], maxArgs) && NormalOk(table[j], maxArgs);
    }
  }

  /** The legacy flag bit alone is looked at only in the first entry: a table may
      pass with the bit set further down. */
  lemma {:induction false} LegacyBitUncheckedAfterFirst(maxArgs: nat)
    ensures var table := [Entry(1, 0, 9, 0, 0, ""), Entry(2, 0, 9 | FLAG_LEGACY, 0, 0, "")];
            ValidTable(table, maxArgs) && table[0].flags & FLAG_LEGACY == 0 && table[1].flags & FLAG_LEGACY != 0
  {
    var table := [Entry(1, 0, 9, 0, 0, ""), Entry(2, 0, 9 | FLAG_LEGACY, 0, 0, "")];
    assert NormalOk(table[0], maxArgs) && NormalOk(table[1], maxArgs);
  }

  /** Setting or clearing that bit changes nothing about the calls an entry accepts. */
  lemma {:induction false} LegacyBitIrrelevantToCalls(e: Entry, nargs: nat, category: Category, isReq: bool)
    ensures CallOk(e.(flags := e.flags | FLAG_LEGACY), nargs, category, isReq) == CallOk(e, nargs, category, isReq)
    ensures CallOk(e.(flags := e.flags & !FLAG_LEGACY), nargs, category, isReq) == CallOk(e, nargs, category, isReq)
  {
    OtherBits(e.flags);
  }

  lemma {:induction false} OtherBits(flags: bv32)
    ensures (flags | 0x8000_0000) & 1 == flags & 1 && (flags | 0x8000_0000) & 2 == flags & 2 && (flags | 0x8000_0000) & 4 == flags & 4
    ensures (flags | 0x8000_0000) & 8 == flags & 8 && (flags | 0x8000_0000) & 16 == flags & 16
    ensures (flags & !0x8000_0000) & 1 == flags & 1 && (flags & !0x8000_0000) & 2 == flags & 2 && (flags & !0x8000_0000) & 4 == flags & 4
    ensures (flags & !0x8000_0000) & 8 == flags & 8 && (flags & !0x8000_0000) & 16 == flags & 16
  {
  }
}
