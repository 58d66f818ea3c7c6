/** The interrupt descriptor table: packed gates, their meaning to the processor (Intel SDM Volume 3A,
    section 6.11), and what `cpu_idt_init` puts in each of the 256. */
module Idt {
  const IDT_ENTRIES := 256
  const KERNEL_CS: bv32 := 0x10
  const GATE_INTERRUPT: bv32 := 0xE
  const GATE_TRAP: bv32 := 0xF
  const LOCAL_TIMER_VECTOR := 0xEF
  const LAPIC_ERROR_VECTOR := 0xEE
  const LAPIC_IPI_VECTOR := 0xED

  /** The two words of a gate. */
  datatype GateDesc = GateDesc(a: bv32, b: bv32)

  /** `pack_gate`; `flags` is not used there. */
  function PackGate(kind: bv32, base: bv32, dpl: bv32, seg: bv32): GateDesc {
    GateDesc((seg << 16) | (base & 0xffff),
             (base & 0xffff0000) | (((0x80 | kind | (dpl << 5)) & 0xff) << 8))
  }

  /** What the processor reads out of a gate: where to go, with which selector, as which kind of gate,
      open to which privilege level, whether it is present and whether it is a system descriptor. */
  datatype Gate = Gate(offset: bv32, selector: bv32, kind: bv32, dpl: bv32, present: bool, system: bool)

  function Decode(g: GateDesc): Gate {
    Gate((g.b & 0xffff0000) | (g.a & 0xffff), g.a >> 16, (g.b >> 8) & 0xf, (g.b >> 13) & 0x3,
         (g.b >> 15) & 1 == 1, (g.b >> 12) & 1 == 0)
  }

  /** A packed gate reads back as what was asked for exactly when the type fits four bits and the
      privilege level two. */
  lemma GateRoundTrip(kind: bv32, base: bv32, dpl: bv32, seg: bv32)
    requires seg < 0x10000
    ensures Decode(PackGate(kind, base, dpl, seg)) == Gate(base, seg, kind, dpl, true, true)
            <==> kind < 16 && dpl < 4
  {
  }

  /** The pieces of code a gate can lead to. */
  datatype Stub = Exception(n: nat) | Ignored | Timer | Ipi | LapicError | PicIrq(irq: nat) | ApicIrq(irq: nat)

  /** What the linker provides: where each stub is, the code at each address, and the two offsets. */
  datatype Image = Image(exceptions: seq<bv32>, ignored: bv32, timer: bv32, ipi: bv32, lapicError: bv32,
                         picIrq: seq<bv32>, apicIrq: seq<bv32>, text: map<bv32, Stub>,
                         picOffset: nat, apicOffset: nat)

  predicate At(text: map<bv32, Stub>, a: bv32, stub: Stub) {
    a in text && text[a] == stub
  }

  /** The tables hold one address per stub, in order, and both ranges of vectors lie in the table. */
  ghost predicate Linked(im: Image) {
    && |im.exceptions| == 17 && |im.picIrq| == 16 && |im.apicIrq| == 24
    && im.picOffset + 16 <= IDT_ENTRIES && im.apicOffset + 24 <= IDT_ENTRIES
    && (forall n :: 0 <= n < 17 ==> At(im.text, im.exceptions[n], Exception(n)))
    && At(im.text, im.ignored, Ignored) && At(im.text, im.timer, Timer)
    && At(im.text, im.ipi, Ipi) && At(im.text, im.lapicError, LapicError)
    && (forall i :: 0 <= i < 16 ==> At(im.text, im.picIrq[i], PicIrq(i)))
    && (forall i :: 0 <= i < 24 ==> At(im.text, im.apicIrq[i], ApicIrq(i)))
  }

  predicate IsPicVector(im: Image, v: nat) {
    im.picOffset <= v < im.picOffset + 16
  }

  predicate IsApicVector(im: Image, v: nat) {
    im.apicOffset <= v < im.apicOffset + 24
  }

  /** The stub vector `v` is meant to reach. Vector 14, the page fault, has none; on a collision the later
      table wins. */
  function Target(im: Image, v: nat): Stub {
    if IsApicVector(im, v) then ApicIrq(v - im.apicOffset)
    else if IsPicVector(im, v) then PicIrq(v - im.picOffset)
    else FixedTarget(v)
  }

  function FixedTarget(v: nat): Stub {
    if v == LOCAL_TIMER_VECTOR then Timer
    else if v == LAPIC_IPI_VECTOR then Ipi
    else if v == LAPIC_ERROR_VECTOR then LapicError
    else if v <= 16 && v != 14 then Exception(v)
    else Ignored
  }

  /** Gate `g` leads to `stub` the way such stubs are meant to be entered: exceptions through trap gates,
      which leave interrupts enabled, except that breakpoint, overflow and bounds are interrupt gates open
      to every privilege level. */
  predicate LeadsTo(im: Image, g: GateDesc, stub: Stub) {
    var d := Decode(g);
    var open := stub.Exception? && 3 <= stub.n <= 5;
    && At(im.text, d.offset, stub)
    && d.selector == KERNEL_CS
    && d.kind == (if stub.Exception? && !open then GATE_TRAP else GATE_INTERRUPT)
    && d.dpl == (if open then 3 else 0)
    && d.present && d.system
  }

  /** What a gate that leads to its target means to the processor, vector by vector (Intel SDM Volume 3A,
      section 6.11, for the numbers). */
  lemma EveryGate(im: Image, v: nat, g: GateDesc)
    requires v < 256 && LeadsTo(im, g, Target(im, v))
    ensures var d := Decode(g);
            var fixed := !(im.picOffset <= v < im.picOffset + 16) && !(im.apicOffset <= v < im.apicOffset + 24);
            && d.selector == 0x10 && d.present && d.system
            && (im.apicOffset <= v < im.apicOffset + 24 ==> At(im.text, d.offset, ApicIrq(v - im.apicOffset)))
            && (!fixed && !(im.apicOffset <= v < im.apicOffset + 24) ==> At(im.text, d.offset, PicIrq(v - im.picOffset)))
            && (fixed && v <= 16 && v != 14 ==> At(im.text, d.offset, Exception(v)))
            && (fixed && v == 0xEF ==> At(im.text, d.offset, Timer))
            && (fixed && v == 0xED ==> At(im.text, d.offset, Ipi))
            && (fixed && v == 0xEE ==> At(im.text, d.offset, LapicError))
            && (fixed && (v == 14 || v > 16) && v !in {0xED, 0xEE, 0xEF} ==> At(im.text, d.offset, Ignored))
            && (d.kind == if fixed && v <= 16 && v !in {3, 4, 5, 14} then 0xF else 0xE)
            && (d.dpl == if fixed && v in {3, 4, 5} then 3 else 0)
  {
    hide Decode;
  }

  class Table {
    const idt: array<GateDesc>

    constructor ()
      ensures fresh(idt) && idt.Length == IDT_ENTRIES
    {
      idt := new GateDesc[IDT_ENTRIES](_ => GateDesc(0, 0));
    }

    method SetGate(n: nat, kind: bv32, addr: bv32, dpl: bv32)
      requires n < idt.Length && kind < 16 && dpl < 4
      modifies idt
      ensures Decode(idt[n]) == Gate(addr, KERNEL_CS, kind, dpl, true, true)
      ensures forall v :: 0 <= v < idt.Length && v != n ==> idt[v] == old(idt[v])
    {
      GateRoundTrip(kind, addr, dpl, KERNEL_CS);
      hide Decode, PackGate;
      idt[n] := PackGate(kind, addr, dpl, KERNEL_CS);
    }

    method SetIntrGate(n: nat, addr: bv32, ghost im: Image, ghost stub: Stub)
      requires n < idt.Length && At(im.text, addr, stub) && !stub.Exception?
      modifies idt
      ensures LeadsTo(im, idt[n], stub)
      ensures forall v :: 0 <= v < idt.Length && v != n ==> idt[v] == old(idt[v])
    {
      hide Decode, PackGate;
      SetGate(n, GATE_INTERRUPT, addr, 0);
    }

    method SetSystemIntrGate(n: nat, addr: bv32, ghost im: Image)
      requires n < idt.Length && At(im.text, addr, Exception(n)) && 3 <= n <= 5
      modifies idt
      ensures LeadsTo(im, idt[n], Exception(n))
      ensures forall v :: 0 <= v < idt.Length && v != n ==> idt[v] == old(idt[v])
    {
      hide Decode, PackGate;
      SetGate(n, GATE_INTERRUPT, addr, 3);
    }

    method SetTrapGate(n: nat, addr: bv32, ghost im: Image)
      requires n < idt.Length && At(im.text, addr, Exception(n)) && !(3 <= n <= 5)
      modifies idt
      ensures LeadsTo(im, idt[n], Exception(n))
      ensures forall v :: 0 <= v < idt.Length && v != n ==> idt[v] == old(idt[v])
    {
      hide Decode, PackGate;
      SetGate(n, GATE_TRAP, addr, 0);
    }

    /** The exceptions up to 7, and the ones after. */
    method SetEarlyExceptions(im: Image)
      requires Linked(im) && idt.Length == IDT_ENTRIES
      modifies idt
      ensures forall v :: 0 <= v < 8 ==> LeadsTo(im, idt[v], Exception(v))
      ensures forall v :: 8 <= v < IDT_ENTRIES ==> idt[v] == old(idt[v])
    {
      hide LeadsTo, At;
      SetTrapGate(0, im.exceptions[0], im);
      SetTrapGate(1, im.exceptions[1], im);
      SetTrapGate(2, im.exceptions[2], im);
      SetSystemIntrGate(3, im.exceptions[3], im);
      SetSystemIntrGate(4, im.exceptions[4], im);
      SetSystemIntrGate(5, im.exceptions[5], im);
      SetTrapGate(6, im.exceptions[6], im);
      SetTrapGate(7, im.exceptions[7], im);
    }

    method SetLateExceptions(im: Image)
      requires Linked(im) && idt.Length == IDT_ENTRIES
      modifies idt
      ensures forall v :: 8 <= v <= 16 && v != 14 ==> LeadsTo(im, idt[v], Exception(v))
      ensures forall v :: 0 <= v < IDT_ENTRIES && (v < 8 || v == 14 || v > 16) ==> idt[v] == old(idt[v])
    {
      hide LeadsTo, At;
      SetTrapGate(8, im.exceptions[8], im);
      SetTrapGate(9, im.exceptions[9], im);
      SetTrapGate(10, im.exceptions[10], im);
      SetTrapGate(11, im.exceptions[11], im);
      SetTrapGate(12, im.exceptions[12], im);
      SetTrapGate(13, im.exceptions[13], im);
      SetTrapGate(15, im.exceptions[15], im);
      SetTrapGate(16, im.exceptions[16], im);
    }

    /** `cpu_idt_init`. */
    method CpuIdtInit(im: Image)
      requires Linked(im) && idt.Length == IDT_ENTRIES
      modifies idt
      ensures forall v :: 0 <= v < IDT_ENTRIES ==> LeadsTo(im, idt[v], Target(im, v))
    {
      hide LeadsTo, At;
      var i := 0;
      while i < IDT_ENTRIES
        invariant 0 <= i <= IDT_ENTRIES
        invariant forall v :: 0 <= v < i ==> LeadsTo(im, idt[v], Ignored)
      {
        SetIntrGate(i, im.ignored, im, Ignored);
        i := i + 1;
      }
      SetEarlyExceptions(im);
      SetLateExceptions(im);
      SetIntrGate(LOCAL_TIMER_VECTOR, im.timer, im, Timer);
      SetIntrGate(LAPIC_IPI_VECTOR, im.ipi, im, Ipi);
      SetIntrGate(LAPIC_ERROR_VECTOR, im.lapicError, im, LapicError);
      i := 0;
      while i < 16
        invariant 0 <= i <= 16
        invariant forall v :: 0 <= v < IDT_ENTRIES ==>
          LeadsTo(im, idt[v], if im.picOffset <= v < im.picOffset + i then PicIrq(v - im.picOffset) else FixedTarget(v))
      {
        SetIntrGate(im.picOffset + i, im.picIrq[i], im, PicIrq(i));
        i := i + 1;
      }
      i := 0;
      while i < 24
        invariant 0 <= i <= 24
        invariant forall v :: 0 <= v < IDT_ENTRIES ==>
          LeadsTo(im, idt[v],
                  if im.apicOffset <= v < im.apicOffset + i then ApicIrq(v - im.apicOffset)
                  else if IsPicVector(im, v) then PicIrq(v - im.picOffset)
                  else FixedTarget(v))
      {
        SetIntrGate(im.apicOffset + i, im.apicIrq[i], im, ApicIrq(i));
        i := i + 1;
      }
    }
  }
}
