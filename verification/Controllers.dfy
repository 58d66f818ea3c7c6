/** The interrupt controllers and the code that drives them: the local APIC's registers, the pair of 8259s,
    the I/O APIC behind its register window, and the tables of interrupt service routines. */
module Controllers {
  import opened Idt

  const LAPIC_SPURIOUS := 0x0F0
  const LAPIC_TIMER_LVT := 0x320
  const LAPIC_SIZE := 0x100
  const PINS := 24
  const WINDOW := 64

  /** An 8259: which initialisation word it expects next (0 when it is in operation), those words, and the
      mask register. */
  datatype Chip = Chip(step: nat, base: bv8, link: bv8, mode: bv8, mask: bv8)

  /** A command with bit 4 set starts initialisation and clears the mask. */
  function WriteCommand(c: Chip, v: bv8): Chip {
    if v & 0x10 != 0 then Chip(2, c.base, c.link, c.mode, 0) else c
  }

  function WriteData(c: Chip, v: bv8): Chip {
    if c.step == 2 then c.(step := 3, base := v)
    else if c.step == 3 then c.(step := 4, link := v)
    else if c.step == 4 then c.(step := 0, mode := v)
    else c.(mask := v)
  }

  /** The vector a chip in operation sends for its line `n`: the low three bits are the line. */
  function VectorSent(c: Chip, n: bv8): bv8 {
    (c.base & 0xf8) | n
  }

  datatype Devices = Devices(lapic: seq<bv32>, master: Chip, slave: Chip, select: nat, regs: seq<bv32>)

  predicate Wired(d: Devices) {
    |d.lapic| == LAPIC_SIZE && |d.regs| == WINDOW
  }

  /** Both chips have had their initialisation words. */
  predicate Ready(d: Devices) {
    Wired(d) && d.master.step == 0 && d.slave.step == 0
  }

  /** The service routines attached; a pointer is a number, null is 0. */
  datatype Handlers = Handlers(pic: seq<nat>, apic: seq<nat>, timer: nat, ipi: nat)

  predicate Shaped(h: Handlers) {
    |h.pic| == 16 && |h.apic| == PINS
  }

  datatype Event = MasterEoi | SlaveEoi | LapicEoi | Call(isr: nat, arg: int)

  // ---------------------------------------------------------------- the masks

  /** `1 << irq`. */
  function Bit(irq: nat): bv8
    requires irq < 8
  {
    1 << irq
  }

  function Unmasked(mask: bv8, irq: nat): bv8
    requires irq < 8
  {
    mask & (0xff - Bit(irq))
  }

  function Masked(mask: bv8, irq: nat): bv8
    requires irq < 8
  {
    mask | Bit(irq)
  }

  function PicEnable(d: Devices, irq: nat): Devices {
    if irq <= 7 then d.(master := WriteData(d.master, Unmasked(d.master.mask, irq)))
    else if irq <= 15 then d.(slave := WriteData(d.slave, Unmasked(d.slave.mask, irq - 8)))
    else d
  }

  function PicDisable(d: Devices, irq: nat): Devices {
    if irq <= 7 then d.(master := WriteData(d.master, Masked(d.master.mask, irq)))
    else if irq <= 15 then d.(slave := WriteData(d.slave, Masked(d.slave.mask, irq - 8)))
    else d
  }

  /** The assignment to the `mask` field of a redirection entry: bit 16 of its low word. */
  function EntryLow(low: bv32, off: bool): bv32 {
    if off then WithBits(low, 0x10000) else WithoutBits(low, 0x10000)
  }

  /** Bit 16 of the low word of the pin's redirection entry is set; both words are written back. */
  function ApicMask(d: Devices, pin: nat, off: bool): Devices
    requires Wired(d) && pin < PINS
  {
    var low := d.regs[0x10 + 2 * pin];
    d.(select := 0x10 + 2 * pin,
       regs := d.regs[0x10 + 2 * pin := EntryLow(low, off)])
  }

  function WithBits(w: bv32, bits: bv32): bv32 {
    w | bits
  }

  function WithoutBits(w: bv32, bits: bv32): bv32 {
    w & !bits
  }

  function LapicSet(d: Devices, reg: nat, bits: bv32): Devices
    requires Wired(d) && reg < LAPIC_SIZE
  {
    d.(lapic := d.lapic[reg := WithBits(d.lapic[reg], bits)])
  }

  function LapicClear(d: Devices, reg: nat, bits: bv32): Devices
    requires Wired(d) && reg < LAPIC_SIZE
  {
    d.(lapic := d.lapic[reg := WithoutBits(d.lapic[reg], bits)])
  }

  function TrapEnable(im: Image, d: Devices, id: nat): Devices
    requires Wired(d)
  {
    if id == 0 then LapicSet(d, LAPIC_SPURIOUS / 4, 0x100)
    else if id == 1 then LapicClear(d, LAPIC_TIMER_LVT / 4, 0x10000)
    else if IsPicVector(im, id) then PicEnable(d, id - im.picOffset)
    else if IsApicVector(im, id) then ApicMask(d, id - im.apicOffset, false)
    else d
  }

  function TrapDisable(im: Image, d: Devices, id: nat): Devices
    requires Wired(d)
  {
    if id == 0 then LapicClear(d, LAPIC_SPURIOUS / 4, 0x100)
    else if id == 1 then LapicSet(d, LAPIC_TIMER_LVT / 4, 0x10000)
    else if IsPicVector(im, id) then PicDisable(d, id - im.picOffset)
    else if IsApicVector(im, id) then ApicMask(d, id - im.apicOffset, true)
    else d
  }

  /** What `i8259_init` leaves behind: both chips in operation, the vector bases programmed, and every line
      but the one between the chips masked. */
  function PicInitialised(d: Devices, offset: bv8): Devices {
    d.(master := Chip(0, offset, 0x4, 0x5, 0xfb), slave := Chip(0, offset + 8, 0x2, 0x1, 0xff))
  }

  /** What `i8259_shutdown` leaves behind. */
  function PicShutDown(d: Devices): Devices {
    d.(master := WriteData(d.master, 0xff), slave := WriteData(d.slave, 0xff))
  }

  // ---------------------------------------------------------------- the service routines

  function Attach(im: Image, h: Handlers, id: nat, isr: nat): Handlers
    requires Shaped(h)
  {
    if id == 0 then h.(ipi := isr)
    else if id == 1 then h.(timer := isr)
    else if IsPicVector(im, id) then h.(pic := h.pic[id - im.picOffset := isr])
    else if IsApicVector(im, id) then h.(apic := h.apic[id - im.apicOffset := isr])
    else h
  }

  function Nulls(n: nat): seq<nat> {
    seq(n, _ => 0)
  }

  /** A routine is called only if there is one, except by the timer and interprocessor stubs. */
  function Called(isr: nat, arg: nat): seq<Event> {
    if isr == 0 then [] else [Call(isr, arg)]
  }

  /** What the code behind a stub does. */
  function Response(im: Image, h: Handlers, stub: Stub): seq<Event>
    requires Shaped(h)
    requires (stub.PicIrq? ==> stub.irq < 16) && (stub.ApicIrq? ==> stub.irq < PINS)
  {
    match stub
    case PicIrq(irq) =>
      (if irq <= 7 then [MasterEoi] else [SlaveEoi, MasterEoi]) + Called(h.pic[irq], im.picOffset + irq)
    case ApicIrq(irq) => Called(h.apic[irq], im.apicOffset + irq) + [LapicEoi]
    case Timer => [LapicEoi, Call(h.timer, 1)]
    case Ipi => [LapicEoi, Call(h.ipi, 1)]
    case Ignored => [LapicEoi]
    case LapicError => []
    case Exception(_) => []
  }

  lemma WrittenBack<T>(s: seq<T>, i: nat, j: nat, v: T)
    requires i < |s| && j < |s|
    ensures s[j := s[j]][i := v] == s[i := v]
  {
    assert s[j := s[j]] == s;
  }

  class Board {
    const im: Image
    const lapic: array<bv32>
    const regs: array<bv32>
    const isrPic: array<nat>
    const isrApic: array<nat>
    var master: Chip
    var slave: Chip
    var select: nat
    var isrTimer: nat
    var isrIpi: nat
    var log: seq<Event>

    ghost predicate Valid() {
      && lapic.Length == LAPIC_SIZE && regs.Length == WINDOW
      && isrPic.Length == 16 && isrApic.Length == PINS
    }

    ghost function Dev(): (d: Devices)
      requires Valid()
      reads this, lapic, regs
      ensures Wired(d)
    {
      Devices(lapic[..], master, slave, select, regs[..])
    }

    ghost function Isrs(): (h: Handlers)
      requires Valid()
      reads this, isrPic, isrApic
      ensures Shaped(h)
    {
      Handlers(isrPic[..], isrApic[..], isrTimer, isrIpi)
    }

    constructor (image: Image)
      ensures Valid() && im == image && log == []
      ensures fresh(lapic) && fresh(regs) && fresh(isrPic) && fresh(isrApic)
      ensures Isrs() == Handlers(Nulls(16), Nulls(PINS), 0, 0)
    {
      im := image;
      lapic := new bv32[LAPIC_SIZE](_ => 0);
      regs := new bv32[WINDOW](_ => 0);
      isrPic := new nat[16](_ => 0);
      isrApic := new nat[PINS](_ => 0);
      master := Chip(0, 0, 0, 0, 0);
      slave := Chip(0, 0, 0, 0, 0);
      select := 0;
      isrTimer := 0;
      isrIpi := 0;
      log := [];
    }

    /** The four ports of the pair of 8259s. */
    method Outb(v: bv8, port: nat)
      modifies this`master, this`slave, this`log
      ensures master == if port == 0x20 then WriteCommand(old(master), v)
                        else if port == 0x21 then WriteData(old(master), v) else old(master)
      ensures slave == if port == 0xa0 then WriteCommand(old(slave), v)
                       else if port == 0xa1 then WriteData(old(slave), v) else old(slave)
      ensures log == old(log) + (if port == 0x20 && v == 0x20 then [MasterEoi]
                                 else if port == 0xa0 && v == 0x20 then [SlaveEoi] else [])
    {
      if port == 0x20 {
        master := WriteCommand(master, v);
        log := log + if v == 0x20 then [MasterEoi] else [];
      } else if port == 0x21 {
        master := WriteData(master, v);
      } else if port == 0xa0 {
        slave := WriteCommand(slave, v);
        log := log + if v == 0x20 then [SlaveEoi] else [];
      } else if port == 0xa1 {
        slave := WriteData(slave, v);
      }
    }

    /** `i8259_enable` and `i8259_disable`. */
    method I8259Enable(irq: nat)
      requires Valid()
      modifies this`master, this`slave, this`log
      ensures Dev() == PicEnable(old(Dev()), irq) && log == old(log)
    {
      if irq <= 7 {
        Outb(master.mask & (0xff - Bit(irq)), 0x21);
      } else if irq <= 15 {
        Outb(slave.mask & (0xff - Bit(irq - 8)), 0xa1);
      }
    }

    method I8259Disable(irq: nat)
      requires Valid()
      modifies this`master, this`slave, this`log
      ensures Dev() == PicDisable(old(Dev()), irq) && log == old(log)
    {
      if irq <= 7 {
        Outb(master.mask | Bit(irq), 0x21);
      } else if irq <= 15 {
        Outb(slave.mask | Bit(irq - 8), 0xa1);
      }
    }

    /** `i8259_shutdown`. */
    method I8259Shutdown()
      requires Valid()
      modifies this`master, this`slave, this`log
      ensures Dev() == PicShutDown(old(Dev())) && log == old(log)
    {
      Outb(0xff, 0x21);
      Outb(0xff, 0xa1);
    }

    method InitialiseMaster(offset: bv8)
      modifies this`master, this`slave, this`log
      ensures master == Chip(0, offset, 0x4, 0x5, 0) && slave == old(slave) && log == old(log)
    {
      Outb(0x11, 0x20);
      Outb(offset, 0x21);
      Outb(0x4, 0x21);
      Outb(0x5, 0x21);
    }

    method InitialiseSlave(offset: bv8)
      modifies this`master, this`slave, this`log
      ensures slave == Chip(0, offset, 0x2, 0x1, 0) && master == old(master) && log == old(log)
    {
      Outb(0x11, 0xa0);
      Outb(offset, 0xa1);
      Outb(0x2, 0xa1);
      Outb(0x1, 0xa1);
    }

    /** The table of service routines is cleared. */
    method ClearIsrPic()
      requires Valid()
      modifies isrPic
      ensures isrPic[..] == Nulls(16)
    {
      var i := 0;
      while i < 16
        invariant 0 <= i <= 16
        invariant forall k :: 0 <= k < i ==> isrPic[k] == 0
      {
        isrPic[i] := 0;
        i := i + 1;
      }
      assert isrPic[..] == Nulls(16);
    }

    /** `i8259_init`. */
    method I8259Init(offset: bv8)
      requires Valid()
      modifies this`master, this`slave, this`log, isrPic
      ensures Dev() == PicInitialised(old(Dev()), offset)
      ensures Isrs() == old(Isrs()).(pic := Nulls(16))
      ensures log == old(log) + [MasterEoi, SlaveEoi]
    {
      ClearIsrPic();
      InitialiseMaster(offset);
      InitialiseSlave(offset + 8);
      Outb(0x20, 0x20);
      Outb(0x20, 0xa0);
      Outb(0xfb, 0x21);
      Outb(0xff, 0xa1);
    }

    /** The window: the first register selects what the second one shows. */
    method IoApicWrite(reg: nat, value: bv32)
      requires Valid() && reg < WINDOW
      modifies this`select, regs
      ensures select == reg && regs[..] == old(regs[..])[reg := value]
    {
      select := reg;
      regs[select] := value;
    }

    method IoApicRead(reg: nat) returns (value: bv32)
      requires Valid() && reg < WINDOW
      modifies this`select
      ensures select == reg && value == regs[reg]
    {
      select := reg;
      value := regs[select];
    }

    method IoApicReadEntry(pin: nat) returns (w1: bv32, w2: bv32)
      requires Valid() && pin < PINS
      modifies this`select
      ensures w1 == regs[0x10 + 2 * pin] && w2 == regs[0x11 + 2 * pin]
    {
      w1 := IoApicRead(0x10 + 2 * pin);
      w2 := IoApicRead(0x11 + 2 * pin);
    }

    method IoApicWriteEntry(pin: nat, w1: bv32, w2: bv32)
      requires Valid() && pin < PINS
      modifies this`select, regs
      ensures select == 0x10 + 2 * pin
      ensures regs[..] == old(regs[..])[0x11 + 2 * pin := w2][0x10 + 2 * pin := w1]
    {
      IoApicWrite(0x11 + 2 * pin, w2);
      IoApicWrite(0x10 + 2 * pin, w1);
    }

    /** The entry written back with another low word. */
    method IoApicWriteBack(pin: nat, low: bv32, w2: bv32)
      requires Valid() && pin < PINS && w2 == regs[0x11 + 2 * pin]
      modifies this`select, regs
      ensures Dev() == old(Dev()).(select := 0x10 + 2 * pin, regs := old(regs[..])[0x10 + 2 * pin := low])
    {
      WrittenBack(regs[..], 0x10 + 2 * pin, 0x11 + 2 * pin, low);
      IoApicWriteEntry(pin, low, w2);
    }

    /** `io_apic_enable` and `io_apic_disable`. */
    method IoApicEnable(pin: nat)
      requires Valid() && pin < PINS
      modifies this`select, regs
      ensures Dev() == ApicMask(old(Dev()), pin, false)
    {
      var w1, w2 := IoApicReadEntry(pin);
      hide EntryLow;
      IoApicWriteBack(pin, EntryLow(w1, false), w2);
    }

    method IoApicDisable(pin: nat)
      requires Valid() && pin < PINS
      modifies this`select, regs
      ensures Dev() == ApicMask(old(Dev()), pin, true)
    {
      var w1, w2 := IoApicReadEntry(pin);
      hide EntryLow;
      IoApicWriteBack(pin, EntryLow(w1, true), w2);
    }

    /** The read, change and write back of a local APIC register. */
    method SetLapicBits(reg: nat, bits: bv32)
      requires Valid() && reg < LAPIC_SIZE
      modifies lapic
      ensures Dev() == LapicSet(old(Dev()), reg, bits)
    {
      var val := lapic[reg];
      val := val | bits;
      lapic[reg] := val;
    }

    method ClearLapicBits(reg: nat, bits: bv32)
      requires Valid() && reg < LAPIC_SIZE
      modifies lapic
      ensures Dev() == LapicClear(old(Dev()), reg, bits)
    {
      var val := lapic[reg];
      val := val & !bits;
      lapic[reg] := val;
    }

    method CpuTrapEnable(id: nat)
      requires Valid()
      modifies this`master, this`slave, this`log, this`select, lapic, regs
      ensures Dev() == TrapEnable(im, old(Dev()), id) && log == old(log)
    {
      hide PicEnable, ApicMask, LapicSet, LapicClear;
      if id == 0 {
        SetLapicBits(LAPIC_SPURIOUS / 4, 0x100);
      } else if id == 1 {
        ClearLapicBits(LAPIC_TIMER_LVT / 4, 0x10000);
      } else if im.picOffset <= id < im.picOffset + 16 {
        I8259Enable(id - im.picOffset);
      } else if im.apicOffset <= id < im.apicOffset + 24 {
        IoApicEnable(id - im.apicOffset);
      }
    }

    method CpuTrapDisable(id: nat)
      requires Valid()
      modifies this`master, this`slave, this`log, this`select, lapic, regs
      ensures Dev() == TrapDisable(im, old(Dev()), id) && log == old(log)
    {
      hide PicDisable, ApicMask, LapicSet, LapicClear;
      if id == 0 {
        ClearLapicBits(LAPIC_SPURIOUS / 4, 0x100);
      } else if id == 1 {
        SetLapicBits(LAPIC_TIMER_LVT / 4, 0x10000);
      } else if im.picOffset <= id < im.picOffset + 16 {
        I8259Disable(id - im.picOffset);
      } else if im.apicOffset <= id < im.apicOffset + 24 {
        IoApicDisable(id - im.apicOffset);
      }
    }

    method CpuTrapAttachIsr(id: nat, isr: nat)
      requires Valid()
      modifies this`isrTimer, this`isrIpi, isrPic, isrApic
      ensures Isrs() == Attach(im, old(Isrs()), id, isr)
    {
      if id == 0 {
        isrIpi := isr;
      } else if id == 1 {
        isrTimer := isr;
      } else if im.picOffset <= id < im.picOffset + 16 {
        isrPic[id - im.picOffset] := isr;
      } else if im.apicOffset <= id < im.apicOffset + 24 {
        isrApic[id - im.apicOffset] := isr;
      }
    }

    method I8259MasterHandler(irq: nat)
      requires Valid() && irq < 16
      modifies this`master, this`slave, this`log
      ensures master == old(master) && slave == old(slave)
      ensures log == old(log) + [MasterEoi] + Called(isrPic[irq], im.picOffset + irq)
    {
      Outb(0x20, 0x20);
      var handler := isrPic[irq];
      if handler != 0 {
        log := log + [Call(handler, im.picOffset + irq)];
      }
    }

    method I8259SlaveHandler(irq: nat)
      requires Valid() && irq < 16
      modifies this`master, this`slave, this`log
      ensures master == old(master) && slave == old(slave)
      ensures log == old(log) + [SlaveEoi, MasterEoi] + Called(isrPic[irq], im.picOffset + irq)
    {
      Outb(0x20, 0xa0);
      Outb(0x20, 0x20);
      var handler := isrPic[irq];
      if handler != 0 {
        log := log + [Call(handler, im.picOffset + irq)];
      }
    }

    method IoApicHandler(irq: nat)
      requires Valid() && irq < PINS
      modifies this`log
      ensures log == old(log) + Called(isrApic[irq], im.apicOffset + irq) + [LapicEoi]
    {
      var handler := isrApic[irq];
      if handler != 0 {
        log := log + [Call(handler, im.apicOffset + irq)];
      }
      log := log + [LapicEoi];
    }

    /** Interrupt `v` arrives: the processor goes where gate `v` says, and the stub there runs. */
    method Interrupt(table: Table, v: nat)
      requires Valid() && Linked(im) && v < IDT_ENTRIES && table.idt.Length == IDT_ENTRIES
      requires LeadsTo(im, table.idt[v], Target(im, v))
      modifies this`master, this`slave, this`log
      ensures Dev() == old(Dev()) && Isrs() == old(Isrs())
      ensures log == old(log) + Response(im, Isrs(), Target(im, v))
    {
      var stub := im.text[Decode(table.idt[v]).offset];
      hide LeadsTo, Decode, Linked;
      match stub
      case PicIrq(irq) =>
        if irq <= 7 {
          I8259MasterHandler(irq);
        } else {
          I8259SlaveHandler(irq);
        }
      case ApicIrq(irq) => IoApicHandler(irq);
      case Timer => log := log + [LapicEoi, Call(isrTimer, 1)];
      case Ipi => log := log + [LapicEoi, Call(isrIpi, 1)];
      case Ignored => log := log + [LapicEoi];
      case LapicError =>
      case Exception(_) =>
    }
  }
}
