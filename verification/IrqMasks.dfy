/** Enabling and disabling interrupts over three kinds of device acts as insertion into and removal from one
    set of ids. */
module IrqMasks {
  import opened Idt
  import opened Controllers

  predicate Managed(im: Image, id: nat) {
    id <= 1 || IsPicVector(im, id) || IsApicVector(im, id)
  }

  /** Whether the bit of interrupt `id` lets it through: the local APIC's enable bit for the IPI, a mask bit
      that is clear for the others. What reaches the processor is `Reaches`. */
  predicate On(im: Image, d: Devices, id: nat)
    requires Wired(d)
  {
    if id == 0 then !Off32(d.lapic[LAPIC_SPURIOUS / 4], 0x100)
    else if id == 1 then Off32(d.lapic[LAPIC_TIMER_LVT / 4], 0x10000)
    else if IsPicVector(im, id) then LineOn(d, id - im.picOffset)
    else IsApicVector(im, id) && PinOn(d, id - im.apicOffset)
  }

  predicate Off32(w: bv32, bits: bv32) {
    w & bits == 0
  }

  predicate LineOn(d: Devices, irq: nat)
    requires irq < 16
  {
    if irq < 8 then Clear(d.master.mask, irq) else Clear(d.slave.mask, irq - 8)
  }

  predicate PinOn(d: Devices, pin: nat)
    requires Wired(d) && pin < PINS
  {
    Off32(d.regs[0x10 + 2 * pin], 0x10000)
  }

  predicate Clear(mask: bv8, irq: nat)
    requires irq < 8
  {
    mask & Bit(irq) == 0
  }

  // ---------------------------------------------------------------- bits

  lemma BitsApart(i: nat, j: nat)
    requires i < 8 && j < 8
    ensures Bit(i) != 0 && (i != j ==> Bit(i) & Bit(j) == 0)
  {
  }

  lemma ClearOne(m: bv8, b: bv8, c: bv8)
    ensures (m & (0xff - b)) & b == 0
    ensures b & c == 0 ==> (m & (0xff - b)) & c == m & c
  {
  }

  lemma SetOne(m: bv8, b: bv8, c: bv8)
    ensures (m | b) & b == b
    ensures b & c == 0 ==> (m | b) & c == m & c
  {
  }

  lemma UnmaskedBits(mask: bv8, i: nat, j: nat)
    requires i < 8 && j < 8
    ensures Clear(Unmasked(mask, i), j) <==> i == j || Clear(mask, j)
  {
    BitsApart(i, j);
    ClearOne(mask, Bit(i), Bit(j));
    hide Bit;
  }

  lemma MaskedBits(mask: bv8, i: nat, j: nat)
    requires i < 8 && j < 8
    ensures Clear(Masked(mask, i), j) <==> i != j && Clear(mask, j)
  {
    BitsApart(i, j);
    SetOne(mask, Bit(i), Bit(j));
    hide Bit;
  }

  lemma WordBits(w: bv32, bits: bv32)
    requires bits != 0
    ensures !Off32(WithBits(w, bits), bits) && Off32(WithoutBits(w, bits), bits)
  {
    assert (w | bits) & bits == bits;
  }

  // ---------------------------------------------------------------- one call

  datatype Switch = Enable(id: nat) | Disable(id: nat)

  function Do(im: Image, d: Devices, s: Switch): Devices
    requires Wired(d)
  {
    match s
    case Enable(id) => TrapEnable(im, d, id)
    case Disable(id) => TrapDisable(im, d, id)
  }

  lemma LineSwitched(d: Devices, irq: nat, j: nat)
    requires Ready(d) && irq < 16 && j < 16
    ensures LineOn(PicEnable(d, irq), j) <==> j == irq || LineOn(d, j)
    ensures LineOn(PicDisable(d, irq), j) <==> j != irq && LineOn(d, j)
  {
    hide Clear, Bit, Masked, Unmasked;
    if irq < 8 && j < 8 {
      UnmaskedBits(d.master.mask, irq, j);
      MaskedBits(d.master.mask, irq, j);
    } else if irq >= 8 && j >= 8 {
      UnmaskedBits(d.slave.mask, irq - 8, j - 8);
      MaskedBits(d.slave.mask, irq - 8, j - 8);
    }
  }

  lemma PinSwitched(d: Devices, pin: nat, off: bool, j: nat)
    requires Wired(d) && pin < PINS && j < PINS
    ensures PinOn(ApicMask(d, pin, off), j) <==> if j == pin then !off else PinOn(d, j)
  {
    WordBits(d.regs[0x10 + 2 * pin], 0x10000);
    hide Off32, WithBits, WithoutBits;
  }

  lemma SpuriousCase(im: Image, d: Devices, s: Switch, j: nat)
    requires Ready(d) && s.id == 0
    ensures On(im, Do(im, d, s), j) <==> if j == 0 then s.Enable? else On(im, d, j)
  {
    WordBits(d.lapic[LAPIC_SPURIOUS / 4], 0x100);
    hide Off32, WithBits, WithoutBits, LineOn, PinOn;
    OtherDevices(d, Do(im, d, s));
  }

  lemma TimerCase(im: Image, d: Devices, s: Switch, j: nat)
    requires Ready(d) && s.id == 1
    ensures On(im, Do(im, d, s), j) <==> if j == 1 then s.Enable? else On(im, d, j)
  {
    WordBits(d.lapic[LAPIC_TIMER_LVT / 4], 0x10000);
    hide Off32, WithBits, WithoutBits, LineOn, PinOn;
    OtherDevices(d, Do(im, d, s));
  }

  lemma OtherDevices(d: Devices, d': Devices)
    requires Wired(d) && Wired(d') && d' == d.(lapic := d'.lapic)
    ensures forall irq :: 0 <= irq < 16 ==> LineOn(d', irq) == LineOn(d, irq)
    ensures forall pin :: 0 <= pin < PINS ==> PinOn(d', pin) == PinOn(d, pin)
  {
    hide Off32, Clear;
  }

  lemma PicCase(im: Image, d: Devices, s: Switch, j: nat)
    requires Ready(d) && s.id > 1 && IsPicVector(im, s.id)
    ensures On(im, Do(im, d, s), j) <==> if j == s.id then s.Enable? else On(im, d, j)
  {
    hide Off32, Clear, Masked, Unmasked;
    if j > 1 && IsPicVector(im, j) {
      LineSwitched(d, s.id - im.picOffset, j - im.picOffset);
      hide LineOn, PicEnable, PicDisable;
    }
  }

  lemma ApicCase(im: Image, d: Devices, s: Switch, j: nat)
    requires Ready(d) && s.id > 1 && !IsPicVector(im, s.id) && IsApicVector(im, s.id)
    ensures On(im, Do(im, d, s), j) <==> if j == s.id then s.Enable? else On(im, d, j)
  {
    hide Off32, Clear, EntryLow;
    if j > 1 && !IsPicVector(im, j) && IsApicVector(im, j) {
      PinSwitched(d, s.id - im.apicOffset, s.Disable?, j - im.apicOffset);
      hide PinOn, ApicMask;
    }
  }

  /** A call switches its own id and no other. */
  lemma SwitchesOnlyItsOwn(im: Image, d: Devices, s: Switch, j: nat)
    requires Ready(d)
    ensures On(im, Do(im, d, s), j) <==>
            if j == s.id && Managed(im, j) then s.Enable? else On(im, d, j)
  {
    if s.id == 0 {
      SpuriousCase(im, d, s, j);
    } else if s.id == 1 {
      TimerCase(im, d, s, j);
    } else if IsPicVector(im, s.id) {
      PicCase(im, d, s, j);
    } else if IsApicVector(im, s.id) {
      ApicCase(im, d, s, j);
    }
  }

  // ---------------------------------------------------------------- what a call keeps

  /** A register with its mask bit, if it has one, cleared. */
  function LapicRest(w: bv32, k: nat): bv32 {
    if k == LAPIC_SPURIOUS / 4 then WithoutBits(w, 0x100)
    else if k == LAPIC_TIMER_LVT / 4 then WithoutBits(w, 0x10000)
    else w
  }

  function RegRest(w: bv32, k: nat): bv32 {
    if 0x10 <= k < 0x10 + 2 * PINS && k % 2 == 0 then WithoutBits(w, 0x10000) else w
  }

  /** The devices without their mask bits and without the I/O APIC's register select. */
  function Rest(d: Devices): Devices
    requires Wired(d)
  {
    Devices(seq(LAPIC_SIZE, k requires 0 <= k < LAPIC_SIZE => LapicRest(d.lapic[k], k)),
            d.master.(mask := 0), d.slave.(mask := 0), 0,
            seq(WINDOW, k requires 0 <= k < WINDOW => RegRest(d.regs[k], k)))
  }

  lemma OrThenAndNot(w: bv32, bits: bv32)
    ensures (w | bits) & !bits == w & !bits
  {
  }

  lemma SetThenCleared(w: bv32, bits: bv32)
    ensures WithoutBits(WithBits(w, bits), bits) == WithoutBits(w, bits)
  {
    assert WithBits(w, bits) == w | bits;
    OrThenAndNot(w, bits);
    assert WithoutBits(w | bits, bits) == (w | bits) & !bits;
  }

  lemma ClearedTwice(w: bv32, bits: bv32)
    ensures WithoutBits(WithoutBits(w, bits), bits) == WithoutBits(w, bits)
  {
  }

  lemma LapicSetKeepsTheRest(d: Devices, reg: nat, bits: bv32)
    requires Wired(d)
    requires (reg, bits) == (LAPIC_SPURIOUS / 4, 0x100) || (reg, bits) == (LAPIC_TIMER_LVT / 4, 0x10000)
    ensures Rest(LapicSet(d, reg, bits)) == Rest(d)
  {
    SetThenCleared(d.lapic[reg], bits);
    hide WithBits, WithoutBits, RegRest;
  }

  lemma LapicClearKeepsTheRest(d: Devices, reg: nat, bits: bv32)
    requires Wired(d)
    requires (reg, bits) == (LAPIC_SPURIOUS / 4, 0x100) || (reg, bits) == (LAPIC_TIMER_LVT / 4, 0x10000)
    ensures Rest(LapicClear(d, reg, bits)) == Rest(d)
  {
    ClearedTwice(d.lapic[reg], bits);
    hide WithBits, WithoutBits, RegRest;
  }

  lemma ApicKeepsTheRest(d: Devices, pin: nat, off: bool)
    requires Wired(d) && pin < PINS
    ensures Rest(ApicMask(d, pin, off)) == Rest(d)
  {
    SetThenCleared(d.regs[0x10 + 2 * pin], 0x10000);
    ClearedTwice(d.regs[0x10 + 2 * pin], 0x10000);
    hide WithBits, WithoutBits;
  }

  lemma PicKeepsTheRest(d: Devices, irq: nat)
    requires Ready(d)
    ensures Rest(PicEnable(d, irq)) == Rest(d) && Rest(PicDisable(d, irq)) == Rest(d)
  {
    hide LapicRest, RegRest, Masked, Unmasked;
  }

  lemma KeepsTheRest(im: Image, d: Devices, s: Switch)
    requires Ready(d)
    ensures Ready(Do(im, d, s)) && Rest(Do(im, d, s)) == Rest(d)
  {
    hide Rest, WithBits, WithoutBits, Masked, Unmasked;
    if s.id == 0 {
      LapicSetKeepsTheRest(d, LAPIC_SPURIOUS / 4, 0x100);
      LapicClearKeepsTheRest(d, LAPIC_SPURIOUS / 4, 0x100);
    } else if s.id == 1 {
      LapicSetKeepsTheRest(d, LAPIC_TIMER_LVT / 4, 0x10000);
      LapicClearKeepsTheRest(d, LAPIC_TIMER_LVT / 4, 0x10000);
    } else if IsPicVector(im, s.id) {
      PicKeepsTheRest(d, s.id - im.picOffset);
    } else if IsApicVector(im, s.id) {
      ApicKeepsTheRest(d, s.id - im.apicOffset, s.Disable?);
    }
  }

  // ---------------------------------------------------------------- all runs

  /** The ids that get through. */
  ghost function EnabledSet(im: Image, d: Devices): set<nat>
    requires Wired(d)
  {
    set id: nat | id < im.picOffset + im.apicOffset + PINS && On(im, d, id)
  }

  lemma EnabledSetIs(im: Image, d: Devices, id: nat)
    requires Wired(d)
    ensures id in EnabledSet(im, d) <==> On(im, d, id)
  {
  }

  function DoAll(im: Image, d: Devices, ss: seq<Switch>): (r: Devices)
    requires Ready(d)
    ensures Ready(r)
    decreases |ss|
  {
    if ss == [] then d
    else
      assert Ready(Do(im, d, ss[0])) by { KeepsTheRest(im, d, ss[0]); }
      DoAll(im, Do(im, d, ss[0]), ss[1..])
  }

  /** The same calls on a set; ids no device manages are ignored. */
  function SetAll(im: Image, ids: set<nat>, ss: seq<Switch>): set<nat>
    decreases |ss|
  {
    if ss == [] then ids
    else SetAll(im, SetOneId(im, ids, ss[0]), ss[1..])
  }

  function SetOneId(im: Image, ids: set<nat>, s: Switch): set<nat> {
    if !Managed(im, s.id) then ids
    else if s.Enable? then ids + {s.id}
    else ids - {s.id}
  }

  lemma OneCallOneId(im: Image, d: Devices, s: Switch)
    requires Ready(d)
    ensures Ready(Do(im, d, s)) && EnabledSet(im, Do(im, d, s)) == SetOneId(im, EnabledSet(im, d), s)
  {
    KeepsTheRest(im, d, s);
    hide Do, On, EnabledSet;
    var t := Do(im, d, s);
    forall id: nat
      ensures id in EnabledSet(im, t) <==> id in SetOneId(im, EnabledSet(im, d), s)
    {
      EnabledSetIs(im, d, id);
      EnabledSetIs(im, t, id);
      SwitchesOnlyItsOwn(im, d, s, id);
    }
  }

  /** Any sequence of `cpu_trap_enable` and `cpu_trap_disable` acts as insertions and removals on one set of
      ids over all three devices, and leaves every bit that is not a mask bit as it was. */
  lemma {:induction false} OneSetOfIds(im: Image, d: Devices, ss: seq<Switch>)
    requires Ready(d)
    ensures EnabledSet(im, DoAll(im, d, ss)) == SetAll(im, EnabledSet(im, d), ss)
    ensures Rest(DoAll(im, d, ss)) == Rest(d)
    decreases |ss|
  {
    if ss != [] {
      OneCallOneId(im, d, ss[0]);
      KeepsTheRest(im, d, ss[0]);
      hide Do, EnabledSet, Rest, SetOneId;
      OneSetOfIds(im, Do(im, d, ss[0]), ss[1..]);
    }
  }

  // ---------------------------------------------------------------- what reaches the processor

  const CASCADE := 2

  predicate BehindTheSlave(im: Image, id: nat) {
    im.picOffset + 8 <= id < im.picOffset + 16
  }

  /** Its own bit lets interrupt `id` through, and for the lines of the slave so does the master's line the
      slave is wired to. */
  predicate Reaches(im: Image, d: Devices, id: nat)
    requires Wired(d)
  {
    On(im, d, id) && (BehindTheSlave(im, id) ==> LineOn(d, CASCADE))
  }

  lemma CascadeIsLine(im: Image, d: Devices)
    requires Wired(d)
    ensures On(im, d, im.picOffset + CASCADE) <==> LineOn(d, CASCADE)
  {
    hide LineOn, PinOn, Off32;
  }

  /** A call decides whether its own id's bit and, if it is for the cascade, whether the slave's lines get
      through, and nothing else. */
  lemma SwitchReaches(im: Image, d: Devices, s: Switch, j: nat)
    requires Ready(d)
    ensures Reaches(im, Do(im, d, s), j) <==>
            && (if j == s.id && Managed(im, j) then s.Enable? else On(im, d, j))
            && (BehindTheSlave(im, j) ==> if s.id == im.picOffset + CASCADE then s.Enable? else LineOn(d, CASCADE))
  {
    KeepsTheRest(im, d, s);
    SwitchesOnlyItsOwn(im, d, s, j);
    SwitchesOnlyItsOwn(im, d, s, im.picOffset + CASCADE);
    hide Do, On, LineOn;
    CascadeIsLine(im, d);
    CascadeIsLine(im, Do(im, d, s));
  }

  /** So one call changes what reaches the processor for another id exactly if it is for the cascade, moves its
      bit, and some line of the slave is open: the one case in which the ids are not independent. */
  lemma OnlyTheCascadeTouchesOthers(im: Image, d: Devices, s: Switch)
    requires Ready(d)
    ensures (exists j: nat :: j != s.id && Reaches(im, Do(im, d, s), j) != Reaches(im, d, j)) <==>
            && s.id == im.picOffset + CASCADE && s.Enable? != LineOn(d, CASCADE)
            && exists j: nat :: BehindTheSlave(im, j) && On(im, d, j)
  {
    forall j: nat
      ensures j != s.id && Reaches(im, Do(im, d, s), j) != Reaches(im, d, j) <==>
              && BehindTheSlave(im, j) && On(im, d, j)
              && s.id == im.picOffset + CASCADE && s.Enable? != LineOn(d, CASCADE)
    {
      SwitchReaches(im, d, s, j);
      hide On, LineOn, Do;
    }
  }

  /** After `i8259_init` exactly the line between the two chips is open among their sixteen. */
  lemma InitLeavesTheCascade(d: Devices, offset: bv8, irq: nat)
    requires irq < 16
    ensures LineOn(PicInitialised(d, offset), irq) <==> irq == 2
  {
  }

  /** The other words it sends agree with the wiring: the master has its slave on line 2 and nowhere else, the
      slave says it is the second, and both work in 8086 mode without acknowledging by themselves. */
  lemma InitMatchesTheWiring(d: Devices, offset: bv8)
    ensures var p := PicInitialised(d, offset);
            && p.master.link == Bit(2) && p.slave.link == 2
            && p.master.mode & 1 == 1 && p.slave.mode & 1 == 1 && p.master.mode & 2 == 0 && p.slave.mode & 2 == 0
            && p.master.mode & 4 == 4 && p.slave.mode & 4 == 0
  {
  }

  /** The bits of the local APIC: enable, bit 8 of the register at 0xF0, and timer mask, bit 16 of the one at
      0x320. */
  lemma LocalBits(im: Image, d: Devices)
    requires Wired(d)
    ensures On(im, d, 0) <==> d.lapic[0xF0 / 4] & 0x100 == 0x100
    ensures On(im, d, 1) <==> d.lapic[0x320 / 4] & 0x10000 == 0
  {
    BitOrNot(d.lapic[0xF0 / 4]);
  }

  lemma BitOrNot(w: bv32)
    ensures w & 0x100 == 0 || w & 0x100 == 0x100
  {
  }

  /** After `i8259_shutdown` none of the sixteen lines is open, and nothing else has changed. */
  lemma ShutdownClosesAll(d: Devices, irq: nat)
    requires Ready(d) && irq < 16
    ensures !LineOn(PicShutDown(d), irq) && Rest(PicShutDown(d)) == Rest(d)
  {
    hide LapicRest, RegRest;
  }

  /** The vector the pair of chips sends for a line. */
  function LineVector(d: Devices, irq: bv8): bv8 {
    if irq < 8 then VectorSent(d.master, irq) else VectorSent(d.slave, irq - 8)
  }

  /** And they send vector `offset + irq` for every line exactly if the offset is a multiple of eight. */
  lemma VectorsAreInOrder(d: Devices, offset: bv8)
    ensures offset & 7 == 0 <==>
            forall irq: bv8 :: irq < 16 ==> LineVector(PicInitialised(d, offset), irq) == offset + irq
  {
    var p := PicInitialised(d, offset);
    if offset & 7 == 0 {
      forall irq: bv8 | irq < 16
        ensures LineVector(p, irq) == offset + irq
      {
      }
    } else {
      assert LineVector(p, 0) != offset + 0;
    }
  }
}
