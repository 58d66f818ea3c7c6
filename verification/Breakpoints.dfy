/** The breakpoint table of debug.c and the code memory it patches. */
module Breakpoints {
  import opened Words

  const MAX_BREAKPOINT := 1024
  const INSN_BREAKPOINT: byte := 0xCC

  /** Address 0 marks a free slot; its `saved` byte is whatever the slot held last. */
  datatype Slot = Slot(saved: byte, address: word)

  datatype Patch = Patch(table: seq<Slot>, mem: seq<byte>)

  predicate Shape(p: Patch) {
    |p.table| == MAX_BREAKPOINT && |p.mem| == WORD_SIZE
  }

  /** The first slot from `i` on that holds `addr`, or the table's length. */
  function FindFrom(table: seq<Slot>, addr: word, i: nat): (r: nat)
    requires i <= |table|
    ensures i <= r <= |table|
    ensures forall k :: i <= k < r ==> table[k].address != addr
    ensures r < |table| ==> table[r].address == addr
    decreases |table| - i
  {
    if i == |table| || table[i].address == addr then i else FindFrom(table, addr, i + 1)
  }

  function Find(table: seq<Slot>, addr: word): (r: nat)
    ensures r <= |table|
    ensures forall k :: 0 <= k < r ==> table[k].address != addr
    ensures r < |table| ==> table[r].address == addr
  {
    FindFrom(table, addr, 0)
  }

  // ---------------------------------------------------------------- what each operation does

  function Add(p: Patch, addr: word): (q: Patch)
    requires Shape(p)
    ensures Shape(q)
  {
    var i := Find(p.table, 0);
    if i == MAX_BREAKPOINT then p
    else Patch(p.table[i := Slot(p.mem[addr], addr)], p.mem[addr := INSN_BREAKPOINT])
  }

  function Remove(p: Patch, addr: word): (q: Patch)
    requires Shape(p)
    ensures Shape(q)
  {
    var i := Find(p.table, addr);
    if i == MAX_BREAKPOINT then p
    else Patch(p.table[i := Slot(p.table[i].saved, 0)], p.mem[addr := p.table[i].saved])
  }

  function Mask(p: Patch, addr: word): (q: Patch)
    requires Shape(p)
    ensures Shape(q)
  {
    var i := Find(p.table, addr);
    if i == MAX_BREAKPOINT then p else p.(mem := p.mem[addr := p.table[i].saved])
  }

  function Unmask(p: Patch, addr: word): (q: Patch)
    requires Shape(p)
    ensures Shape(q)
  {
    if Find(p.table, addr) == MAX_BREAKPOINT then p else p.(mem := p.mem[addr := INSN_BREAKPOINT])
  }

  /** Memory after the first slots of a table have been masked (or armed) in order. */
  function MaskAll(table: seq<Slot>, mem: seq<byte>): (m: seq<byte>)
    requires |mem| == WORD_SIZE
    ensures |m| == WORD_SIZE
  {
    if table == [] then mem
    else
      var s, m := table[|table| - 1], MaskAll(table[..|table| - 1], mem);
      if s.address == 0 then m else m[s.address := s.saved]
  }

  function UnmaskAll(table: seq<Slot>, mem: seq<byte>): (m: seq<byte>)
    requires |mem| == WORD_SIZE
    ensures |m| == WORD_SIZE
  {
    if table == [] then mem
    else
      var s, m := table[|table| - 1], UnmaskAll(table[..|table| - 1], mem);
      if s.address == 0 then m else m[s.address := INSN_BREAKPOINT]
  }

  // ---------------------------------------------------------------- the logical memory

  predicate Listed(table: seq<Slot>, a: word) {
    a != 0 && Find(table, a) < |table|
  }

  /** The program's own byte at `a`: the saved one under a breakpoint, memory elsewhere. */
  function Logical(p: Patch, a: word): byte
    requires Shape(p)
  {
    if Listed(p.table, a) then p.table[Find(p.table, a)].saved else p.mem[a]
  }

  ghost predicate SameProgram(p: Patch, q: Patch)
    requires Shape(p) && Shape(q)
  {
    forall a: word :: Logical(p, a) == Logical(q, a)
  }

  ghost predicate Distinct(table: seq<Slot>) {
    forall i, j :: 0 <= i < j < |table| && table[i].address != 0 ==> table[i].address != table[j].address
  }

  /** Every listed address carries the breakpoint instruction. */
  ghost predicate Armed(p: Patch)
    requires Shape(p)
  {
    forall i :: 0 <= i < MAX_BREAKPOINT && p.table[i].address != 0 ==> p.mem[p.table[i].address] == INSN_BREAKPOINT
  }

  /** Every listed address does, except that `e`, if listed, shows the program's byte. */
  ghost predicate ArmedExcept(p: Patch, e: word)
    requires Shape(p)
  {
    && (forall i :: 0 <= i < MAX_BREAKPOINT && p.table[i].address != 0 && p.table[i].address != e
                ==> p.mem[p.table[i].address] == INSN_BREAKPOINT)
    && p.mem[e] == Logical(p, e)
  }

  ghost predicate Sound(p: Patch) {
    Shape(p) && Distinct(p.table) && Armed(p)
  }

  lemma FindListed(table: seq<Slot>, i: nat)
    requires Distinct(table) && i < |table| && table[i].address != 0
    ensures Find(table, table[i].address) == i
  {
  }

  lemma FindAfterUpdate(table: seq<Slot>, i: nat, s: Slot, a: word)
    requires i < |table| && a != s.address && a != table[i].address
    ensures Find(table[i := s], a) == Find(table, a)
  {
    var f, g := Find(table, a), Find(table[i := s], a);
    assert f < |table| ==> table[i := s][f].address == a;
    assert g < |table| ==> table[g].address == a;
  }

  /** Exactly when adding keeps the table sound and the program as it was: the table is full, or the
      address is new and not null (null is also harmless if a breakpoint byte is already there). */
  predicate AddAllowed(p: Patch, addr: word)
    requires Shape(p)
  {
    || Find(p.table, 0) == MAX_BREAKPOINT
    || (!Listed(p.table, addr) && (addr == 0 ==> p.mem[0] == INSN_BREAKPOINT))
  }

  predicate RemoveAllowed(p: Patch, addr: word)
    requires Shape(p)
  {
    var i := Find(p.table, addr);
    addr != 0 || i == MAX_BREAKPOINT || p.mem[0] == p.table[i].saved
  }

  lemma AddExact(p: Patch, addr: word)
    requires Sound(p)
    ensures Sound(Add(p, addr)) && SameProgram(p, Add(p, addr)) <==> AddAllowed(p, addr)
  {
    var i, q := Find(p.table, 0), Add(p, addr);
    if i < MAX_BREAKPOINT {
      if Listed(p.table, addr) {
        var k := Find(p.table, addr);
        assert q.table[k].address == q.table[i].address == addr;
        assert !Distinct(q.table);
      } else if addr == 0 {
        AddNull(p);
      } else {
        AddFresh(p, addr);
      }
    }
  }

  lemma AddNull(p: Patch)
    requires Sound(p) && Find(p.table, 0) < MAX_BREAKPOINT
    ensures Sound(Add(p, 0)) && (SameProgram(p, Add(p, 0)) <==> p.mem[0] == INSN_BREAKPOINT)
  {
    var i, q := Find(p.table, 0), Add(p, 0);
    assert Logical(q, 0) == INSN_BREAKPOINT && Logical(p, 0) == p.mem[0];
    forall a: word | a != 0
      ensures Logical(p, a) == Logical(q, a)
    {
      FindAfterUpdate(p.table, i, q.table[i], a);
    }
  }

  lemma AddFresh(p: Patch, addr: word)
    requires Sound(p) && Find(p.table, 0) < MAX_BREAKPOINT && addr != 0 && !Listed(p.table, addr)
    ensures Sound(Add(p, addr)) && SameProgram(p, Add(p, addr))
    ensures Listed(Add(p, addr).table, addr)
    ensures forall a: word :: a != addr ==> (Listed(Add(p, addr).table, a) <==> Listed(p.table, a))
  {
    var i, q := Find(p.table, 0), Add(p, addr);
    FindListed(q.table, i);
    forall a: word | a != addr
      ensures Logical(p, a) == Logical(q, a) && (Listed(q.table, a) <==> Listed(p.table, a))
    {
      if a != 0 {
        FindAfterUpdate(p.table, i, q.table[i], a);
      }
    }
  }

  lemma RemoveExact(p: Patch, addr: word)
    requires Sound(p)
    ensures Sound(Remove(p, addr)) && SameProgram(p, Remove(p, addr)) <==> RemoveAllowed(p, addr)
  {
    var i, q := Find(p.table, addr), Remove(p, addr);
    if i < MAX_BREAKPOINT {
      if addr == 0 {
        assert Logical(q, 0) == p.table[i].saved && Logical(p, 0) == p.mem[0];
        forall a: word | a != 0
          ensures Logical(p, a) == Logical(q, a)
        {
          FindAfterUpdate(p.table, i, q.table[i], a);
        }
      } else {
        RemoveListed(p, addr);
      }
    }
  }

  lemma RemoveListed(p: Patch, addr: word)
    requires Sound(p) && Listed(p.table, addr)
    ensures Sound(Remove(p, addr)) && SameProgram(p, Remove(p, addr))
    ensures !Listed(Remove(p, addr).table, addr)
    ensures forall a: word :: a != addr ==> (Listed(Remove(p, addr).table, a) <==> Listed(p.table, a))
  {
    var i, q := Find(p.table, addr), Remove(p, addr);
    assert forall k :: 0 <= k < MAX_BREAKPOINT && k != i ==> q.table[k] == p.table[k] && p.table[k].address != addr;
    forall a: word | a != addr
      ensures Logical(p, a) == Logical(q, a) && (Listed(q.table, a) <==> Listed(p.table, a))
    {
      if a != 0 {
        FindAfterUpdate(p.table, i, q.table[i], a);
      }
    }
  }

  /** The defect behind `AddAllowed`: setting one breakpoint twice and clearing it twice leaves the
      breakpoint instruction in the program for good, with an empty entry in the table. */
  lemma DuplicateAddLosesTheByte(p: Patch, addr: word)
    requires Sound(p) && addr != 0 && !Listed(p.table, addr) && p.mem[addr] != INSN_BREAKPOINT
    requires Find(p.table, 0) < MAX_BREAKPOINT && Find(Add(p, addr).table, 0) < MAX_BREAKPOINT
    ensures var q := Remove(Remove(Add(Add(p, addr), addr), addr), addr);
            !Listed(q.table, addr) && q.mem[addr] == INSN_BREAKPOINT && Logical(p, addr) != INSN_BREAKPOINT
  {
    var i := Find(p.table, 0);
    var p1 := Add(p, addr);
    var j := Find(p1.table, 0);
    var p2 := Add(p1, addr);
    assert i < j && p2.table[j] == Slot(INSN_BREAKPOINT, addr);
    assert forall k :: 0 <= k < MAX_BREAKPOINT ==> p.table[k].address != addr;
    assert forall k :: 0 <= k < MAX_BREAKPOINT && p2.table[k].address == addr ==> k == i || k == j;
    var p3 := Remove(p2, addr);
    assert p2.table[i].address == addr;
    assert p3.table[j].address == addr;
  }

  // ---------------------------------------------------------------- masking

  lemma {:induction false} MaskAllAt(table: seq<Slot>, mem: seq<byte>, a: word)
    requires |mem| == WORD_SIZE && Distinct(table)
    ensures MaskAll(table, mem)[a] == if Listed(table, a) then table[Find(table, a)].saved else mem[a]
  {
    if table == [] {
    } else {
      var n := |table| - 1;
      MaskAllAt(table[..n], mem, a);
      PrefixFind(table, n, a);
    }
  }

  lemma PrefixFind(table: seq<Slot>, n: nat, a: word)
    requires n < |table|
    ensures Find(table[..n], a) < n ==> Find(table, a) == Find(table[..n], a)
    ensures Find(table[..n], a) == n ==> Find(table, a) >= n
  {
    var f, g := Find(table[..n], a), Find(table, a);
    assert f < n ==> table[f].address == a;
    assert g < n ==> table[..n][g].address == a;
  }

  lemma {:induction false} UnmaskAllAt(table: seq<Slot>, mem: seq<byte>, a: word)
    requires |mem| == WORD_SIZE
    ensures UnmaskAll(table, mem)[a] == if Listed(table, a) then INSN_BREAKPOINT else mem[a]
  {
    if table == [] {
    } else {
      var n := |table| - 1;
      UnmaskAllAt(table[..n], mem, a);
      PrefixFind(table, n, a);
    }
  }

  /** Masking every breakpoint uncovers exactly the logical memory; arming them again undoes it. */
  lemma MaskAllShowsTheProgram(p: Patch)
    requires Sound(p)
    ensures forall a: word :: MaskAll(p.table, p.mem)[a] == Logical(p, a)
    ensures UnmaskAll(p.table, MaskAll(p.table, p.mem)) == p.mem
  {
    var m := MaskAll(p.table, p.mem);
    forall a: word
      ensures m[a] == Logical(p, a) && UnmaskAll(p.table, m)[a] == p.mem[a]
    {
      MaskAllAt(p.table, p.mem, a);
      UnmaskAllAt(p.table, m, a);
    }
    assert forall a :: 0 <= a < WORD_SIZE ==> UnmaskAll(p.table, m)[a as word] == p.mem[a];
  }

  lemma MaskOne(p: Patch, e: word)
    requires Sound(p) && (e == 0 ==> Find(p.table, 0) == MAX_BREAKPOINT || p.mem[0] == p.table[Find(p.table, 0)].saved)
    ensures ArmedExcept(Mask(p, e), e) && SameProgram(p, Mask(p, e))
    ensures Mask(p, e).table == p.table
  {
  }

  lemma UnmaskOne(p: Patch, e: word)
    requires Shape(p) && Distinct(p.table) && ArmedExcept(p, e) && (e == 0 ==> Find(p.table, 0) == MAX_BREAKPOINT)
    ensures Sound(Unmask(p, e)) && SameProgram(p, Unmask(p, e))
    ensures Unmask(p, e).table == p.table
  {
    var q := Unmask(p, e);
    forall i | 0 <= i < MAX_BREAKPOINT && q.table[i].address != 0
      ensures q.mem[q.table[i].address] == INSN_BREAKPOINT
    {
      if q.table[i].address == e {
        FindListed(p.table, i);
      }
    }
  }

  // ---------------------------------------------------------------- the table as a finite map

  function Slots(table: seq<Slot>): (m: map<word, byte>) {
    if table == [] then map[]
    else
      var s, m := table[|table| - 1], Slots(table[..|table| - 1]);
      if s.address == 0 then m else m[s.address := s.saved]
  }

  lemma {:induction false} SlotsMeaning(table: seq<Slot>)
    requires Distinct(table)
    ensures forall a: word :: a in Slots(table) <==> Listed(table, a)
    ensures forall a: word :: Listed(table, a) ==> Slots(table)[a] == table[Find(table, a)].saved
  {
    if table == [] {
    } else {
      var n := |table| - 1;
      SlotsMeaning(table[..n]);
      forall a: word
        ensures a in Slots(table) <==> Listed(table, a)
        ensures Listed(table, a) ==> Slots(table)[a] == table[Find(table, a)].saved
      {
        PrefixFind(table, n, a);
      }
    }
  }

  lemma {:induction false} SlotsSize(table: seq<Slot>)
    requires Distinct(table)
    ensures |Slots(table)| <= |table|
    ensures |Slots(table)| == |table| <==> Find(table, 0) == |table|
  {
    if table == [] {
    } else {
      var n := |table| - 1;
      var s := table[n];
      SlotsSize(table[..n]);
      PrefixFind(table, n, 0);
      if s.address != 0 {
        SlotsMeaning(table[..n]);
        assert s.address !in Slots(table[..n]);
      }
    }
  }

  datatype Op = AddOp(addr: word) | RemoveOp(addr: word)

  function RunTable(p: Patch, ops: seq<Op>): (q: Patch)
    requires Shape(p)
    ensures Shape(q)
    decreases |ops|
  {
    if ops == [] then p
    else RunTable(match ops[0] case AddOp(a) => Add(p, a) case RemoveOp(a) => Remove(p, a), ops[1..])
  }

  /** The reference: a map of at most `MAX_BREAKPOINT` entries from address to original byte. */
  function RefStep(m: map<word, byte>, original: seq<byte>, op: Op): map<word, byte>
    requires |original| == WORD_SIZE
  {
    match op
    case AddOp(a) => if |m| == MAX_BREAKPOINT then m else m[a := original[a]]
    case RemoveOp(a) => m - {a}
  }

  function RefRun(m: map<word, byte>, original: seq<byte>, ops: seq<Op>): map<word, byte>
    requires |original| == WORD_SIZE
    decreases |ops|
  {
    if ops == [] then m else RefRun(RefStep(m, original, ops[0]), original, ops[1..])
  }

  /** No null address, and no address added while it is set. */
  predicate Disciplined(m: map<word, byte>, original: seq<byte>, ops: seq<Op>)
    requires |original| == WORD_SIZE
    decreases |ops|
  {
    ops != [] ==>
      && ops[0].addr != 0
      && (ops[0].AddOp? ==> ops[0].addr !in m)
      && Disciplined(RefStep(m, original, ops[0]), original, ops[1..])
  }

  /** The table is the map, and memory is the original patched exactly on its domain. */
  ghost predicate Refines(p: Patch, m: map<word, byte>, original: seq<byte>)
    requires |original| == WORD_SIZE
  {
    && Shape(p) && Distinct(p.table) && Slots(p.table) == m
    && (forall a: word :: a in m ==> m[a] == original[a])
    && (forall a: word :: p.mem[a] == if a in m then INSN_BREAKPOINT else original[a])
  }

  lemma RefinesMeans(p: Patch, m: map<word, byte>, original: seq<byte>)
    requires |original| == WORD_SIZE && Refines(p, m, original)
    ensures Sound(p)
    ensures forall a: word :: Logical(p, a) == original[a]
    ensures forall a: word :: a in m <==> Listed(p.table, a)
    ensures |m| <= MAX_BREAKPOINT
    ensures |m| == MAX_BREAKPOINT <==> Find(p.table, 0) == MAX_BREAKPOINT
  {
    SlotsMeaning(p.table);
    SlotsSize(p.table);
    forall i | 0 <= i < MAX_BREAKPOINT && p.table[i].address != 0
      ensures p.mem[p.table[i].address] == INSN_BREAKPOINT
    {
      FindListed(p.table, i);
    }
  }

  lemma MeansRefines(q: Patch, r: map<word, byte>, original: seq<byte>)
    requires |original| == WORD_SIZE && Sound(q)
    requires forall a: word :: Logical(q, a) == original[a]
    requires forall a: word :: a in r <==> Listed(q.table, a)
    requires forall a: word :: a in r ==> r[a] == original[a]
    ensures Refines(q, r, original)
  {
    SlotsMeaning(q.table);
    assert Slots(q.table) == r;
    forall a: word
      ensures q.mem[a] == if a in r then INSN_BREAKPOINT else original[a]
    {
      assert Logical(q, a) == original[a];
    }
  }

  lemma AddRefines(p: Patch, m: map<word, byte>, original: seq<byte>, a: word)
    requires |original| == WORD_SIZE && Refines(p, m, original) && a != 0 && a !in m
    ensures Refines(Add(p, a), RefStep(m, original, AddOp(a)), original)
  {
    RefinesMeans(p, m, original);
    if |m| < MAX_BREAKPOINT {
      AddFresh(p, a);
      MeansRefines(Add(p, a), RefStep(m, original, AddOp(a)), original);
    }
  }

  lemma RemoveRefines(p: Patch, m: map<word, byte>, original: seq<byte>, a: word)
    requires |original| == WORD_SIZE && Refines(p, m, original) && a != 0
    ensures Refines(Remove(p, a), RefStep(m, original, RemoveOp(a)), original)
  {
    RefinesMeans(p, m, original);
    if a in m {
      RemoveListed(p, a);
      MeansRefines(Remove(p, a), RefStep(m, original, RemoveOp(a)), original);
    } else {
      assert m - {a} == m;
    }
  }

  /** Any disciplined run of additions and removals, slot reuse and a full table included, is a run of
      the map; the map never outgrows the table, and when it empties memory is the original again. */
  lemma {:induction false} TableRefinesMap(p: Patch, m: map<word, byte>, original: seq<byte>, ops: seq<Op>)
    requires |original| == WORD_SIZE && Refines(p, m, original) && Disciplined(m, original, ops)
    ensures var q, r := RunTable(p, ops), RefRun(m, original, ops);
            Refines(q, r, original) && |r| <= MAX_BREAKPOINT && (r == map[] ==> q.mem == original)
    decreases |ops|
  {
    if ops == [] {
      SlotsSize(p.table);
      if m == map[] {
        assert forall a :: 0 <= a < WORD_SIZE ==> p.mem[a as word] == original[a];
      }
    } else {
      match ops[0]
      case AddOp(a) =>
        AddRefines(p, m, original, a);
        TableRefinesMap(Add(p, a), RefStep(m, original, ops[0]), original, ops[1..]);
      case RemoveOp(a) =>
        RemoveRefines(p, m, original, a);
        TableRefinesMap(Remove(p, a), RefStep(m, original, ops[0]), original, ops[1..]);
    }
  }

  lemma {:induction false} EmptySlots(table: seq<Slot>)
    requires forall i :: 0 <= i < |table| ==> table[i].address == 0
    ensures Slots(table) == map[]
  {
    if table == [] {
    } else {
      EmptySlots(table[..|table| - 1]);
    }
  }

  // ---------------------------------------------------------------- debug.c

  class BreakpointTable {
    const breakpoints: array<Slot>
    var mem: seq<byte>
    /** The table and the memory as values. */
    ghost var patch: Patch

    ghost predicate Valid()
      reads this, breakpoints
    {
      breakpoints.Length == MAX_BREAKPOINT && |mem| == WORD_SIZE && patch == Patch(breakpoints[..], mem)
    }

    constructor (mem: seq<byte>)
      requires |mem| == WORD_SIZE
      ensures Valid() && fresh(breakpoints) && patch.mem == mem
      ensures Sound(patch) && Slots(patch.table) == map[]
    {
      breakpoints := new Slot[MAX_BREAKPOINT](_ => Slot(0, 0));
      this.mem := mem;
      new;
      patch := Patch(breakpoints[..], mem);
      EmptySlots(breakpoints[..]);
    }

    /** `add_breakpoint` */
    method AddBreakpoint(addr: word)
      requires Valid()
      modifies this, breakpoints
      ensures Valid() && patch == Add(old(patch), addr)
    {
      var i := 0;
      while i < MAX_BREAKPOINT
        invariant 0 <= i <= MAX_BREAKPOINT && Valid() && patch == old(patch)
        invariant forall k :: 0 <= k < i ==> breakpoints[k].address != 0
      {
        if breakpoints[i].address == 0 {
          assert breakpoints[..][i].address == 0;
          FirstIs(breakpoints[..], 0, i);
          breakpoints[i] := Slot(mem[addr], addr);
          mem := mem[addr := INSN_BREAKPOINT];
          patch := Patch(breakpoints[..], mem);
          return;
        }
        i := i + 1;
      }
      NoneIs(breakpoints[..], 0, i);
    }

    /** `remove_breakpoint` */
    method RemoveBreakpoint(addr: word)
      requires Valid()
      modifies this, breakpoints
      ensures Valid() && patch == Remove(old(patch), addr)
    {
      var i := 0;
      while i < MAX_BREAKPOINT
        invariant 0 <= i <= MAX_BREAKPOINT && Valid() && patch == old(patch)
        invariant forall k :: 0 <= k < i ==> breakpoints[k].address != addr
      {
        if breakpoints[i].address == addr {
          FirstIs(breakpoints[..], addr, i);
          mem := mem[addr := breakpoints[i].saved];
          breakpoints[i] := breakpoints[i].(address := 0);
          patch := Patch(breakpoints[..], mem);
          return;
        }
        i := i + 1;
      }
      NoneIs(breakpoints[..], addr, i);
    }

    /** `mask_breakpoint` */
    method MaskBreakpoint(addr: word)
      requires Valid()
      modifies this
      ensures Valid() && patch == Mask(old(patch), addr)
    {
      var i := 0;
      while i < MAX_BREAKPOINT
        invariant 0 <= i <= MAX_BREAKPOINT && Valid() && patch == old(patch)
        invariant forall k :: 0 <= k < i ==> breakpoints[k].address != addr
      {
        if breakpoints[i].address == addr {
          FirstIs(breakpoints[..], addr, i);
          mem := mem[addr := breakpoints[i].saved];
          patch := patch.(mem := mem);
          return;
        }
        i := i + 1;
      }
      NoneIs(breakpoints[..], addr, i);
    }

    /** `unmask_breakpoint` */
    method UnmaskBreakpoint(addr: word)
      requires Valid()
      modifies this
      ensures Valid() && patch == Unmask(old(patch), addr)
    {
      var i := 0;
      while i < MAX_BREAKPOINT
        invariant 0 <= i <= MAX_BREAKPOINT && Valid() && patch == old(patch)
        invariant forall k :: 0 <= k < i ==> breakpoints[k].address != addr
      {
        if breakpoints[i].address == addr {
          FirstIs(breakpoints[..], addr, i);
          mem := mem[addr := INSN_BREAKPOINT];
          patch := patch.(mem := mem);
          return;
        }
        i := i + 1;
      }
      NoneIs(breakpoints[..], addr, i);
    }

    /** `mask_all_breakpoints` */
    method MaskAllBreakpoints()
      requires Valid()
      modifies this
      ensures Valid() && patch == old(patch).(mem := MaskAll(old(patch).table, old(patch).mem))
    {
      var i := 0;
      while i < MAX_BREAKPOINT
        invariant 0 <= i <= MAX_BREAKPOINT && |mem| == WORD_SIZE && patch == old(patch)
        invariant mem == MaskAll(breakpoints[..i], old(mem))
      {
        assert breakpoints[..i + 1][..i] == breakpoints[..i];
        if breakpoints[i].address != 0 {
          mem := mem[breakpoints[i].address := breakpoints[i].saved];
        }
        i := i + 1;
      }
      assert breakpoints[..i] == breakpoints[..];
      patch := patch.(mem := mem);
    }

    /** `unmask_all_breakpoints` */
    method UnmaskAllBreakpoints()
      requires Valid()
      modifies this
      ensures Valid() && patch == old(patch).(mem := UnmaskAll(old(patch).table, old(patch).mem))
    {
      var i := 0;
      while i < MAX_BREAKPOINT
        invariant 0 <= i <= MAX_BREAKPOINT && |mem| == WORD_SIZE && patch == old(patch)
        invariant mem == UnmaskAll(breakpoints[..i], old(mem))
      {
        assert breakpoints[..i + 1][..i] == breakpoints[..i];
        if breakpoints[i].address != 0 {
          mem := mem[breakpoints[i].address := INSN_BREAKPOINT];
        }
        i := i + 1;
      }
      assert breakpoints[..i] == breakpoints[..];
      patch := patch.(mem := mem);
    }
  }

  lemma FirstIs(table: seq<Slot>, addr: word, i: nat)
    requires i < |table| && table[i].address == addr
    requires forall k :: 0 <= k < i ==> table[k].address != addr
    ensures Find(table, addr) == i
  {
  }

  lemma NoneIs(table: seq<Slot>, addr: word, i: nat)
    requires forall k :: 0 <= k < i < |table| + 1 ==> table[k].address != addr
    ensures i == |table| ==> Find(table, addr) == |table|
  {
  }
}
