/** Trap trampolines and interrupt stubs: what they push, what handlers see, what `iret` restores. */
module TrapFrames {
  import opened Words
  import opened Machine
  import HexText
  import Packets
  import GdbStub
  import DebugRuns

  const LAPIC_EOI: word := 0xFEE0_00B0
  const KERNEL_DS: word := 0x18

  /** The hardware's part: flags, code segment and program counter. */
  function Deliver(c: Cpu): Cpu {
    Push(Push(Push(c, c.eflags), c.cs), c.eip)
  }

  /** A stack pointer with room below for a trap frame and the three words the hardware pushes. */
  predicate Room(esp: word) {
    esp % 4 == 0 && 64 <= esp && esp <= 0x1_0000_0000 - 16
  }

  // ---------------------------------------------------------------- the trampolines, as listed

  /** The stack of both trampolines, downwards from the program counter at `f`: saved registers, error
      code, the pointer to the hardware's frame, and the return address of the call. */
  function TrapMem(c: Cpu, f: word, err: word, ret: word): Memory
    requires f >= 52
  {
    var m := c.mem[f - 4 := c.eax][f - 8 := c.ebx][f - 12 := c.ecx][f - 16 := c.edx][f - 20 := c.edi];
    var m := m[f - 24 := c.esi][f - 28 := c.ebp][f - 32 := c.ds][f - 36 := c.es][f - 40 := c.fs];
    m[f - 44 := err][f - 48 := f][f - 52 := ret]
  }

  /** The stack of an interrupt stub, downwards from the program counter at `f`. */
  function IrqMem(c: Cpu, f: word, id: word, ret: word): Memory
    requires f >= 52
  {
    var m := c.mem[f - 4 := c.eax][f - 8 := c.ecx][f - 12 := c.edx][f - 16 := c.ebx][f - 20 := f];
    m[f - 24 := c.ebp][f - 28 := c.esi][f - 32 := c.edi][f - 36 := id][f - 40 := ret]
  }

  class Processor {
    var c: Cpu

    /** `no_error_code`, up to and including the call of the handler. */
    method NoErrorCode(handler: word, ret: word)
      requires c.esp >= 52
      modifies this
      ensures c == Enter(Trap(Stub.NoErrorCode, handler, ret, Done), old(c))
    {
      var s := c;
      ghost var f := s.esp;
      s := Push(s, handler);
      s := s.(eax := Top(s), mem := s.mem[s.esp := s.eax]);
      assert s.eax == handler && s.esp == f - 4 && s.mem == c.mem[f - 4 := c.eax];
      s := Push(s, s.ebx);
      s := Push(s, s.ecx);
      s := Push(s, s.edx);
      s := Push(s, s.edi);
      s := Push(s, s.esi);
      s := Push(s, s.ebp);
      s := Push(s, s.ds);
      s := Push(s, s.es);
      s := Push(s, s.fs);
      assert s.esp == f - 40;
      s := Push(s, 0);
      s := s.(edx := Plus(s.esp, 44));
      assert s.edx == f;
      s := Push(s, s.edx);
      s := Push(s, ret).(eip := s.eax);
      c := s;
    }

    /** `error_code`, up to and including the call; the hardware has pushed the error code `err` on the
        frame it delivered, `d`. */
    method ErrorCode(handler: word, ret: word, ghost d: Cpu, ghost err: word)
      requires d.esp >= 52 && c == Push(d, err)
      modifies this
      ensures c == Enter(Trap(Stub.ErrorCode(err), handler, ret, Done), d)
    {
      var s := c;
      ghost var f := d.esp;
      s := Push(s, handler);
      s := s.(eax := Load(s, s.esp, 4), mem := s.mem[Plus(s.esp, 4) := s.eax]);
      s := s.(ebx := Top(s), mem := s.mem[s.esp := s.ebx]);
      assert s.eax == err && s.ebx == handler && s.esp == f - 8;
      assert s.mem == d.mem[f - 4 := d.eax][f - 8 := d.ebx];
      s := Push(s, s.ecx);
      s := Push(s, s.edx);
      s := Push(s, s.edi);
      s := Push(s, s.esi);
      s := Push(s, s.ebp);
      s := Push(s, s.ds);
      s := Push(s, s.es);
      s := Push(s, s.fs);
      assert s.esp == f - 40;
      s := Push(s, s.eax);
      s := s.(eax := Plus(s.esp, 44));
      assert s.eax == f;
      s := Push(s, s.eax);
      s := Push(s, ret).(eip := s.ebx);
      c := s;
    }

    /** Both trampolines from the return of the handler on. */
    method TrapExit()
      requires c.esp + 60 < 0x1_0000_0000
      modifies this
      ensures c == TrapLeft(old(c), old(c).esp + 48)
    {
      var s := c;
      s := Discard(s, 8);
      s := PopFs(s);
      s := PopEs(s);
      s := PopDs(s);
      s := PopEbp(s);
      s := PopEsi(s);
      s := PopEdi(s);
      s := PopEdx(s);
      s := PopEcx(s);
      s := PopEbx(s);
      s := PopEax(s);
      s := Iret(s);
      c := s;
    }

    /** An interrupt stub of either controller, up to and including the call. */
    method IrqStub(id: word, handler: word, ret: word)
      requires c.esp >= 52
      modifies this
      ensures c == Enter(Trap(Irq(id), handler, ret, Done), old(c))
    {
      var s := c;
      s := Pusha(s);
      s := Push(s, id);
      s := Push(s, ret).(eip := handler);
      c := s;
    }

    /** `timer_int` and `ipi_int`: the local controller is acknowledged, and the argument is 1. */
    method LocalStub(isr: word, ret: word)
      requires c.esp >= 52 && !(c.esp - 40 <= LAPIC_EOI < c.esp)
      modifies this
      ensures c == Enter(Trap(Local, isr, ret, Done), old(c))
    {
      var s := c;
      s := Pusha(s);
      s := s.(mem := s.mem[LAPIC_EOI := 0]);
      s := Push(s, 1);
      s := s.(eax := isr);
      s := Push(s, ret).(eip := s.eax);
      c := s;
    }

    /** Every interrupt stub from the return of the handler on. */
    method IrqExit()
      requires c.esp + 48 < 0x1_0000_0000
      modifies this
      ensures c == IrqLeft(old(c), old(c).esp + 36)
    {
      var s := c;
      s := Discard(s, 4);
      s := Popa(s);
      s := Iret(s);
      c := s;
    }
  }

  /** The processor after a trampoline's pops and `iret`, `f` being the address of the program counter. */
  function TrapLeft(c: Cpu, f: word): Cpu
    requires f >= 48 && f + 12 < 0x1_0000_0000
  {
    c.(eax := c.mem[f - 4], ebx := c.mem[f - 8], ecx := c.mem[f - 12], edx := c.mem[f - 16], edi := c.mem[f - 20],
       esi := c.mem[f - 24], ebp := c.mem[f - 28], ds := c.mem[f - 32], es := c.mem[f - 36], fs := c.mem[f - 40],
       eip := c.mem[f], cs := c.mem[f + 4], eflags := c.mem[f + 8], esp := f + 12)
  }

  function IrqLeft(c: Cpu, f: word): Cpu
    requires f >= 36 && f + 12 < 0x1_0000_0000
  {
    c.(eax := c.mem[f - 4], ecx := c.mem[f - 8], edx := c.mem[f - 12], ebx := c.mem[f - 16], ebp := c.mem[f - 24],
       esi := c.mem[f - 28], edi := c.mem[f - 32],
       eip := c.mem[f], cs := c.mem[f + 4], eflags := c.mem[f + 8], esp := f + 12)
  }

  // ---------------------------------------------------------------- handlers and nested traps

  /** How the processor gets to a handler: the two trampolines, the stubs of the interrupt controllers,
      and the stubs of the local timer and of inter-processor interrupts. */
  datatype Stub = NoErrorCode | ErrorCode(err: word) | Irq(id: word) | Local

  /** One trap: the stub, the handler it calls, and what happens until the handler returns. */
  datatype Trap = Trap(stub: Stub, handler: word, ret: word, acts: Acts)

  datatype Acts = Done | Then(act: Act, rest: Acts)

  /** A stretch of handler code: it computes in registers, with its stack pointer anywhere below its
      frame; it writes memory; it changes the interrupted program counter or flags through its first
      argument; or it is itself trapped. */
  datatype Act = Compute(r: Cpu) | Write(a: word, v: word) | SetEip(v: word) | SetEflags(v: word) | Nested(t: Trap)

  predicate ThroughTrampoline(k: Stub) {
    k.NoErrorCode? || k.ErrorCode?
  }

  /** The stack pointer a handler is entered with. */
  function Base(k: Stub, f: word): int {
    if ThroughTrampoline(k) then f - 52 else f - 40
  }

  function Enter(t: Trap, d: Cpu): Cpu
    requires d.esp >= 52
  {
    var f := d.esp;
    match t.stub
    case NoErrorCode =>
      d.(esp := f - 52, eip := t.handler, eax := t.handler, edx := f, mem := TrapMem(d, f, 0, t.ret))
    case ErrorCode(err) =>
      d.(esp := f - 52, eip := t.handler, eax := f, ebx := t.handler, mem := TrapMem(d, f, err, t.ret))
    case Irq(id) =>
      d.(esp := f - 40, eip := t.handler, mem := IrqMem(d, f, id, t.ret))
    case Local =>
      d.(esp := f - 40, eip := t.handler, eax := t.handler, mem := IrqMem(d, f, 1, t.ret)[LAPIC_EOI := 0])
  }

  /** A handler that follows the C calling convention gives back ebx, esi, edi, ebp and the stack. */
  function Returned(e: Cpu, h: Cpu): Cpu {
    h.(ebx := e.ebx, esi := e.esi, edi := e.edi, ebp := e.ebp, esp := Plus(e.esp, 4), eip := h.mem[e.esp])
  }

  function Exit(k: Stub, c: Cpu, f: word): Cpu
    requires f >= 52 && f + 12 < 0x1_0000_0000
  {
    if ThroughTrampoline(k) then TrapLeft(c, f) else IrqLeft(c, f)
  }

  /** A trap taken at `c`, to the instruction after its `iret`. */
  function RunTrap(t: Trap, c: Cpu): Cpu
    decreases t
  {
    if !Room(c.esp) then c
    else
      var d := Deliver(c);
      var f := Plus(c.esp, -12);
      var e := Enter(t, d);
      Exit(t.stub, Returned(e, RunActs(t.acts, e, f)), f)
  }

  function RunActs(acts: Acts, c: Cpu, f: word): Cpu
    decreases acts
  {
    match acts
    case Done => c
    case Then(a, rest) => RunActs(rest, RunAct(a, c, f), f)
  }

  function RunAct(a: Act, c: Cpu, f: word): Cpu
    decreases a
  {
    match a
    case Compute(r) => r.(cs := c.cs, mem := c.mem)
    case Write(x, v) => c.(mem := c.mem[x := v])
    case SetEip(v) => c.(mem := c.mem[f := v])
    case SetEflags(v) => c.(mem := c.mem[Plus(f, 8) := v])
    case Nested(t) => RunTrap(t, c)
  }

  // ---------------------------------------------------------------- what is asked of handlers

  /** The arguments the stub itself made up: the pointer and the error code, or the number. The C calling
      convention gives them to the handler, and no exit looks at them. */
  function Arguments(k: Stub, f: word): set<int> {
    if ThroughTrampoline(k) then {f - 48, f - 44} else {f - 36}
  }

  /** The words of a frame that have to stay: from the return address of the call to the interrupted flags,
      but for those arguments. */
  function Frame(k: Stub, f: word): (s: set<int>)
    ensures forall a :: a in s <==> Base(k, f) <= a < f as int + 12 && a !in Arguments(k, f)
  {
    Interval(Base(k, f), f as int + 12) - Arguments(k, f)
  }

  function Interval(lo: int, hi: int): (s: set<int>)
    ensures forall a :: a in s <==> lo <= a < hi
    decreases hi - lo
  {
    if lo >= hi then {} else {lo} + Interval(lo + 1, hi)
  }

  predicate AwayFromEoi(k: Stub, f: word) {
    !(Base(k, f) <= LAPIC_EOI as int < f as int + 12)
  }

  /** The trap finds room on the stack, nothing `live` lies below the stack pointer, and its handler
      leaves alone what is live and the frame. */
  ghost predicate TrapOk(t: Trap, c: Cpu, live: set<int>)
    decreases t
  {
    && Room(c.esp) && (forall a :: a in live ==> a >= c.esp)
    && (t.stub.Local? ==> LAPIC_EOI as int !in live && AwayFromEoi(t.stub, Plus(c.esp, -12)))
    && var f := Plus(c.esp, -12);
       ActsOk(t.acts, Enter(t, Deliver(c)), t.stub, f, live + Frame(t.stub, f))
  }

  ghost predicate ActsOk(acts: Acts, c: Cpu, k: Stub, f: word, live: set<int>)
    decreases acts
  {
    match acts
    case Done => true
    case Then(a, rest) => ActOk(a, c, k, f, live) && ActsOk(rest, RunAct(a, c, f), k, f, live)
  }

  ghost predicate ActOk(a: Act, c: Cpu, k: Stub, f: word, live: set<int>)
    decreases a
  {
    match a
    case Compute(r) =>
      r.esp <= Base(k, f) && (!ThroughTrampoline(k) ==> r.ds == c.ds && r.es == c.es && r.fs == c.fs)
    case Write(x, _) => x as int !in live
    case SetEip(_) => ThroughTrampoline(k)
    case SetEflags(_) => ThroughTrampoline(k)
    case Nested(t) => TrapOk(t, c, live)
  }

  /** What a handler last wrote to `esp[0]` and `esp[2]`. */
  function LastEip(acts: Acts, eip: word): word {
    match acts
    case Done => eip
    case Then(a, rest) => LastEip(rest, if a.SetEip? then a.v else eip)
  }

  function LastEflags(acts: Acts, eflags: word): word {
    match acts
    case Done => eflags
    case Then(a, rest) => LastEflags(rest, if a.SetEflags? then a.v else eflags)
  }

  // ---------------------------------------------------------------- the frame, pushed and popped

  lemma Delivered(c: Cpu)
    requires Room(c.esp)
    ensures var d, f := Deliver(c), c.esp - 12;
            && d == c.(esp := f, mem := d.mem)
            && d.mem[f] == c.eip && d.mem[f + 4] == c.cs && d.mem[f + 8] == c.eflags
            && forall a: word :: !(f <= a < f + 12) ==> d.mem[a] == c.mem[a]
  {
  }

  /** The saved registers are where the exit will look for them. */
  ghost predicate Framed(k: Stub, m: Memory, f: word, c: Cpu)
    requires f >= 52
  {
    if ThroughTrampoline(k) then
      && m[f - 4] == c.eax && m[f - 8] == c.ebx && m[f - 12] == c.ecx && m[f - 16] == c.edx && m[f - 20] == c.edi
      && m[f - 24] == c.esi && m[f - 28] == c.ebp && m[f - 32] == c.ds && m[f - 36] == c.es && m[f - 40] == c.fs
    else
      && m[f - 4] == c.eax && m[f - 8] == c.ecx && m[f - 12] == c.edx && m[f - 16] == c.ebx
      && m[f - 24] == c.ebp && m[f - 28] == c.esi && m[f - 32] == c.edi
  }

  lemma TrapMemFrames(d: Cpu, err: word, ret: word)
    requires d.esp >= 52 && d.esp + 12 < 0x1_0000_0000
    ensures Framed(NoErrorCode, TrapMem(d, d.esp, err, ret), d.esp, d)
    ensures forall a: word :: !(d.esp - 52 <= a < d.esp) ==> TrapMem(d, d.esp, err, ret)[a] == d.mem[a]
  {
  }

  lemma IrqMemFrames(d: Cpu, id: word, ret: word)
    requires d.esp >= 52 && d.esp + 12 < 0x1_0000_0000
    ensures Framed(Local, IrqMem(d, d.esp, id, ret), d.esp, d)
    ensures forall a: word :: !(d.esp - 40 <= a < d.esp) ==> IrqMem(d, d.esp, id, ret)[a] == d.mem[a]
  {
  }

  lemma EnterFrames(t: Trap, d: Cpu)
    requires d.esp >= 52 && d.esp + 12 < 0x1_0000_0000
    requires t.stub.Local? ==> AwayFromEoi(t.stub, d.esp)
    ensures var e := Enter(t, d);
            && e.esp as int == Base(t.stub, d.esp) && e.cs == d.cs
            && (!ThroughTrampoline(t.stub) ==> e.ds == d.ds && e.es == d.es && e.fs == d.fs)
            && Framed(t.stub, e.mem, d.esp, d)
            && forall a: word :: !(Base(t.stub, d.esp) <= a < d.esp) && (t.stub.Local? ==> a != LAPIC_EOI)
                 ==> e.mem[a] == d.mem[a]
  {
    hide TrapMem, IrqMem;
    match t.stub
    case NoErrorCode => TrapMemFrames(d, 0, t.ret);
    case ErrorCode(err) => TrapMemFrames(d, err, t.ret);
    case Irq(id) => IrqMemFrames(d, id, t.ret);
    case Local => IrqMemFrames(d, 1, t.ret);
  }

  /** What the called handler finds: its own address in the program counter, the way back on top of the stack,
      and above it, from a controller's stub the number of the line, from a local one the number 1 with the
      controller already acknowledged, and from a trampoline the address of the interrupted program counter
      and the error code, 0 where the hardware pushes none. */
  lemma HandlerIsCalled(t: Trap, d: Cpu)
    requires d.esp >= 52 && d.esp + 12 < 0x1_0000_0000
    requires t.stub.Local? ==> AwayFromEoi(t.stub, d.esp)
    ensures var e := Enter(t, d);
            && e.eip == t.handler && Top(e) == t.ret
            && (t.stub.Irq? ==> Load(e, e.esp, 4) == t.stub.id)
            && (t.stub.Local? ==> Load(e, e.esp, 4) == 1 && e.mem[0xFEE0_00B0] == 0)
            && (t.stub.NoErrorCode? ==> Load(e, e.esp, 4) == d.esp && Load(e, e.esp, 8) == 0)
            && (t.stub.ErrorCode? ==> Load(e, e.esp, 4) == d.esp && Load(e, e.esp, 8) == t.stub.err)
  {
    TrapMemTop(d, if t.stub.ErrorCode? then t.stub.err else 0, t.ret);
    IrqMemTop(d, if t.stub.Irq? then t.stub.id else 1, t.ret);
    hide TrapMem, IrqMem;
  }

  lemma TrapMemTop(d: Cpu, err: word, ret: word)
    requires d.esp >= 52
    ensures var m, f := TrapMem(d, d.esp, err, ret), d.esp;
            m[f - 52] == ret && m[f - 48] == f && m[f - 44] == err
  {
  }

  lemma IrqMemTop(d: Cpu, id: word, ret: word)
    requires d.esp >= 52
    ensures var m, f := IrqMem(d, d.esp, id, ret), d.esp;
            m[f - 40] == ret && m[f - 36] == id
  {
  }

  lemma ExitRestores(k: Stub, h: Cpu, f: word, c: Cpu)
    requires f >= 52 && f + 12 < 0x1_0000_0000 && Framed(k, h.mem, f, c) && h.mem[f + 4] == c.cs
    requires !ThroughTrampoline(k) ==> h.ds == c.ds && h.es == c.es && h.fs == c.fs
    ensures Exit(k, h, f) == c.(esp := f + 12, eip := h.mem[f], eflags := h.mem[f + 8], mem := h.mem)
  {
  }

  // ---------------------------------------------------------------- any tree of traps

  /** Memory a handler must not change is unchanged, the two words of the frame it may change excepted. */
  ghost predicate LiveKept(m: Memory, n: Memory, f: word, live: set<int>) {
    forall a: word :: a in live && a != f && a != Plus(f, 8) ==> m[a] == n[a]
  }

  lemma {:induction false} ActKeeps(a: Act, c: Cpu, k: Stub, f: word, live: set<int>)
    requires ActOk(a, c, k, f, live) && f + 12 < 0x1_0000_0000 && f in live && f + 8 in live
    ensures var h := RunAct(a, c, f);
            && LiveKept(c.mem, h.mem, f, live)
            && h.mem[f] == (if a.SetEip? then a.v else c.mem[f])
            && h.mem[f + 8] == (if a.SetEflags? then a.v else c.mem[f + 8])
            && h.cs == c.cs
            && (!ThroughTrampoline(k) ==> h.ds == c.ds && h.es == c.es && h.fs == c.fs)
    decreases a, 0
  {
    match a
    case Compute(_) =>
    case Write(_, _) =>
    case SetEip(_) =>
    case SetEflags(_) =>
    case Nested(t) =>
      TrapRestores(t, c, live);
  }

  lemma {:induction false} ActsKeep(acts: Acts, c: Cpu, k: Stub, f: word, live: set<int>)
    requires ActsOk(acts, c, k, f, live) && f + 12 < 0x1_0000_0000 && f in live && f + 8 in live
    ensures var h := RunActs(acts, c, f);
            && LiveKept(c.mem, h.mem, f, live)
            && h.mem[f] == LastEip(acts, c.mem[f]) && h.mem[f + 8] == LastEflags(acts, c.mem[f + 8])
            && h.cs == c.cs
            && (!ThroughTrampoline(k) ==> h.ds == c.ds && h.es == c.es && h.fs == c.fs)
    decreases acts, 1
  {
    match acts
    case Done =>
    case Then(a, rest) =>
      ActKeeps(a, c, k, f, live);
      ActsKeep(rest, RunAct(a, c, f), k, f, live);
  }

  /** However deeply traps and interrupts nest, each `iret` gives back every general register, the
      segment registers and the stack pointer as they were, and only the program counter and the flags
      can differ, by what the handler itself last wrote to `esp[0]` and `esp[2]`. */
  lemma {:induction false} TrapRestores(t: Trap, c: Cpu, live: set<int>)
    requires TrapOk(t, c, live)
    ensures var r := RunTrap(t, c);
            && r == c.(eip := LastEip(t.acts, c.eip), eflags := LastEflags(t.acts, c.eflags), mem := r.mem)
            && forall a: word :: a in live ==> r.mem[a] == c.mem[a]
    decreases t, 2
  {
    var d, f := Deliver(c), Plus(c.esp, -12);
    var e, k := Enter(t, d), t.stub;
    var all := live + Frame(k, f);
    Delivered(c);
    EnterFrames(t, d);
    hide ActsOk, RunActs, Enter, Deliver, Exit;
    ActsKeep(t.acts, e, k, f, all);
    var h := RunActs(t.acts, e, f);
    FrameSurvives(k, e.mem, h.mem, f, d, live);
    ExitRestores(k, Returned(e, h), f, d);
  }

  lemma FrameSurvives(k: Stub, m: Memory, n: Memory, f: word, c: Cpu, live: set<int>)
    requires 52 <= f && f + 12 < 0x1_0000_0000 && Framed(k, m, f, c) && LiveKept(m, n, f, live + Frame(k, f))
    ensures Framed(k, n, f, c) && n[f + 4] == m[f + 4]
  {
  }

  // ---------------------------------------------------------------- do_int3 and do_debug

  /** What `do_int3` and `do_debug` make of their arguments on the stack: the first is the pointer to the
      hardware's frame, the last ten the registers saved by the trampoline. */
  function HandlerRegs(c: Cpu): GdbStub.Regs {
    var frame := Load(c, c.esp, 4);
    GdbStub.Regs(
      eax := Load(c, c.esp, 48), ecx := Load(c, c.esp, 40), edx := Load(c, c.esp, 36), ebx := Load(c, c.esp, 44),
      esp := Plus(frame, 12), ebp := Load(c, c.esp, 24), esi := Load(c, c.esp, 28), edi := Load(c, c.esp, 32),
      eip := Load(c, frame, 0), eflags := Load(c, frame, 8),
      es := Load(c, c.esp, 16), cs := Load(c, frame, 4), ss := KERNEL_DS, ds := Load(c, c.esp, 20),
      fs := 0, gs := 0)
  }

  /** What `do_int3` and `do_debug` have in common: the conversation, then program counter and flags written back. */
  method DoTrap(c: Cpu, trapno: int, d: GdbStub.Debugger) returns (ok: bool, c': Cpu)
    requires d.Valid()
    modifies d.Repr
    ensures ok ==> d.Valid()
    ensures var e := GdbStub.Conversation(d.end, old(d.Now()), trapno, HandlerRegs(c),
                                          old(d.link.port.pending), old(d.link.port.sent));
            && (ok <==> e.Returns?)
            && (ok ==> d.Now() == e.s && c' == WrittenBack(c, e.t))
  {
    var esp := Load(c, c.esp, 4);
    var eip, cs, eflags := Load(c, esp, 0), Load(c, esp, 4), Load(c, esp, 8);
    var regs := GdbStub.Regs(
      eip := eip,
      ebp := Load(c, c.esp, 24),
      esp := Plus(esp, 12),
      eflags := eflags,
      eax := Load(c, c.esp, 48),
      ebx := Load(c, c.esp, 44),
      ecx := Load(c, c.esp, 40),
      edx := Load(c, c.esp, 36),
      edi := Load(c, c.esp, 32),
      cs := cs,
      fs := 0x0000,
      gs := 0x0000,
      es := Load(c, c.esp, 16),
      ds := Load(c, c.esp, 20),
      esi := Load(c, c.esp, 28),
      ss := KERNEL_DS);
    ok, regs := d.Converse(trapno, regs);
    c' := c;
    if ok {
      c' := Store(c', esp, 0, regs.eip);
      c' := Store(c', esp, 8, regs.eflags);
    }
  }

  /** `do_int3` */
  method DoInt3(c: Cpu, d: GdbStub.Debugger) returns (ok: bool, c': Cpu)
    requires d.Valid()
    modifies d.Repr
    ensures ok ==> d.Valid()
    ensures var e := GdbStub.Conversation(d.end, old(d.Now()), 3, HandlerRegs(c),
                                          old(d.link.port.pending), old(d.link.port.sent));
            (ok <==> e.Returns?) && (ok ==> d.Now() == e.s && c' == WrittenBack(c, e.t))
  {
    ok, c' := DoTrap(c, GdbStub.EXC_BP, d);
  }

  /** `do_debug` */
  method DoDebug(c: Cpu, d: GdbStub.Debugger) returns (ok: bool, c': Cpu)
    requires d.Valid()
    modifies d.Repr
    ensures ok ==> d.Valid()
    ensures var e := GdbStub.Conversation(d.end, old(d.Now()), 1, HandlerRegs(c),
                                          old(d.link.port.pending), old(d.link.port.sent));
            (ok <==> e.Returns?) && (ok ==> d.Now() == e.s && c' == WrittenBack(c, e.t))
  {
    ok, c' := DoTrap(c, GdbStub.EXC_DB, d);
  }

  function WrittenBack(c: Cpu, t: GdbStub.Regs): Cpu {
    var frame := Load(c, c.esp, 4);
    c.(mem := c.mem[Plus(frame, 0) := t.eip][Plus(frame, 8) := t.eflags])
  }

  /** The registers of the interrupted program, as the debugger is meant to see them. */
  function Interrupted(c: Cpu): GdbStub.Regs {
    GdbStub.Regs(eax := c.eax, ecx := c.ecx, edx := c.edx, ebx := c.ebx, esp := c.esp, ebp := c.ebp,
                 esi := c.esi, edi := c.edi, eip := c.eip, eflags := c.eflags,
                 es := c.es, cs := c.cs, ss := KERNEL_DS, ds := c.ds, fs := 0, gs := 0)
  }

  /** Through hardware frame, trampoline and argument list, the handler gets the interrupted program's own
      registers, its stack pointer from before the trap included. */
  lemma HandlerSeesTheProgram(c: Cpu, handler: word, ret: word, acts: Acts)
    requires Room(c.esp)
    ensures HandlerRegs(Enter(Trap(NoErrorCode, handler, ret, acts), Deliver(c))) == Interrupted(c)
  {
    var d := Deliver(c);
    Delivered(c);
    hide Deliver;
    ArgumentsAt(Enter(Trap(NoErrorCode, handler, ret, acts), d), d, ret);
  }

  lemma ArgumentsAt(e: Cpu, d: Cpu, ret: word)
    requires 52 <= d.esp && d.esp + 12 < 0x1_0000_0000
    requires e.esp == d.esp - 52 && e.mem == TrapMem(d, d.esp, 0, ret)
    ensures Load(e, e.esp, 4) == d.esp
    ensures HandlerRegs(e) == GdbStub.Regs(
              d.eax, d.ecx, d.edx, d.ebx, Plus(d.esp, 12), d.ebp, d.esi, d.edi, d.mem[d.esp], d.mem[d.esp + 8],
              d.es, d.mem[d.esp + 4], KERNEL_DS, d.ds, 0, 0)
  {
    TrapMemFrames(d, 0, ret);
    assert e.mem[d.esp - 48] == d.esp;
    hide TrapMem;
  }

  /** The registers in the order of a `g` reply, for a program interrupted at `c` and stopped at `eip`. */
  function ShownRegisters(c: Cpu, eip: word): seq<word> {
    [c.eax, c.ecx, c.edx, c.ebx, c.esp, c.ebp, c.esi, c.edi, eip, c.eflags, c.cs, 0x18, c.ds, c.es, 0, 0]
  }

  /** End to end: a `g` request in the conversation a trap starts is answered with the registers the
      interrupted program had, decoded from the first 128 characters of the reply. */
  lemma ReplyShowsTheProgram(c: Cpu, handler: word, ret: word, acts: Acts, trapno: int,
                             end: word, s: GdbStub.Stub, s2: GdbStub.Stub, pkt: string)
    requires Room(c.esp) && GdbStub.StubShape(s) && GdbStub.StubShape(s2) && HexText.At(pkt, 0) == 'g'
    requires var regs := HandlerRegs(Enter(Trap(NoErrorCode, handler, ret, acts), Deliver(c)));
             GdbStub.Entered(s, trapno, regs).1.Some?
    ensures var regs := HandlerRegs(Enter(Trap(NoErrorCode, handler, ret, acts), Deliver(c)));
            var t := GdbStub.Entered(s, trapno, regs).1.value;
            var v := GdbStub.Command(end, s2, t, pkt);
            && v.Answer? && |Packets.CString(v.s.sendBuf, 0)| >= 128
            && HexText.DecodeWords(Packets.CString(v.s.sendBuf, 0)[..128]) ==
               Some(ShownRegisters(c, DebugRuns.StoppedAt(s, trapno, c.eip)))
  {
    HandlerSeesTheProgram(c, handler, ret, acts);
    hide HandlerRegs, Enter, Deliver;
    var t := GdbStub.Entered(s, trapno, Interrupted(c)).1.value;
    StoppedRegisters(c, s, trapno);
    hide GdbStub.Entered, GdbStub.Command, GdbStub.RegisterList, Interrupted, ShownRegisters, DebugRuns.StoppedAt;
    DebugRuns.RegistersReadBack(end, s2, t, pkt);
  }

  lemma StoppedRegisters(c: Cpu, s: GdbStub.Stub, trapno: int)
    requires GdbStub.StubShape(s) && GdbStub.Entered(s, trapno, Interrupted(c)).1.Some?
    ensures GdbStub.RegisterList(GdbStub.Entered(s, trapno, Interrupted(c)).1.value) ==
            ShownRegisters(c, DebugRuns.StoppedAt(s, trapno, c.eip))
  {
  }

  /** The two writes of `do_int3` and `do_debug`. */
  function WriteBack(r: GdbStub.Regs): Acts {
    Then(SetEip(r.eip), Then(SetEflags(r.eflags), Done))
  }

  lemma WriteBackOk(r: GdbStub.Regs, c: Cpu, f: word, live: set<int>)
    ensures ActsOk(WriteBack(r), c, NoErrorCode, f, live)
    ensures RunActs(WriteBack(r), c, f) == c.(mem := c.mem[f := r.eip][Plus(f, 8) := r.eflags])
    ensures LastEip(WriteBack(r), c.eip) == r.eip && LastEflags(WriteBack(r), c.eflags) == r.eflags
  {
    var rest := Then(SetEflags(r.eflags), Done);
    var c1 := RunAct(SetEip(r.eip), c, f);
    var c2 := RunAct(SetEflags(r.eflags), c1, f);
    assert ActsOk(Done, c2, NoErrorCode, f, live);
    assert ActsOk(rest, c1, NoErrorCode, f, live);
    assert RunActs(rest, c1, f) == RunActs(Done, c2, f) == c2;
    assert LastEip(rest, r.eip) == LastEip(Done, r.eip);
    assert LastEflags(rest, c.eflags) == LastEflags(Done, r.eflags);
  }

  /** What follows the last of `a` is `b`. */
  function Append(a: Acts, b: Acts): Acts {
    match a
    case Done => b
    case Then(x, rest) => Then(x, Append(rest, b))
  }

  lemma {:induction false} AppendRuns(a: Acts, b: Acts, c: Cpu, k: Stub, f: word, live: set<int>)
    ensures RunActs(Append(a, b), c, f) == RunActs(b, RunActs(a, c, f), f)
    ensures ActsOk(Append(a, b), c, k, f, live) <==> ActsOk(a, c, k, f, live) && ActsOk(b, RunActs(a, c, f), k, f, live)
    decreases a
  {
    match a
    case Done =>
    case Then(x, rest) => AppendRuns(rest, b, RunAct(x, c, f), k, f, live);
  }

  lemma {:induction false} AppendLast(a: Acts, b: Acts, eip: word, eflags: word)
    ensures LastEip(Append(a, b), eip) == LastEip(b, LastEip(a, eip))
    ensures LastEflags(Append(a, b), eflags) == LastEflags(b, LastEflags(a, eflags))
    decreases a
  {
    match a
    case Done =>
    case Then(x, rest) => AppendLast(rest, b, if x.SetEip? then x.v else eip, if x.SetEflags? then x.v else eflags);
  }

  /** Whatever a handler has done before, and however often it was interrupted, if it has kept its first
      argument, that still points to the interrupted program counter and flags, and there is where it writes. */
  lemma WrittenBackByHandler(c: Cpu, handler: word, ret: word, acts: Acts, r: GdbStub.Regs)
    requires Room(c.esp)
    requires var e, f := Enter(Trap(NoErrorCode, handler, ret, acts), Deliver(c)), Plus(c.esp, -12);
             ActsOk(acts, e, NoErrorCode, f, Frame(NoErrorCode, f) + {f - 48})
    ensures var e, f := Enter(Trap(NoErrorCode, handler, ret, acts), Deliver(c)), Plus(c.esp, -12);
            var h := RunActs(acts, e, f);
            && Load(h, e.esp, 4) == f
            && WrittenBack(h.(esp := e.esp), r).mem == RunActs(WriteBack(r), h, f).mem
  {
    var d, f := Deliver(c), Plus(c.esp, -12);
    var t := Trap(NoErrorCode, handler, ret, acts);
    var e := Enter(t, d);
    var h := RunActs(acts, e, f);
    Delivered(c);
    ArgumentsAt(e, d, ret);
    WriteBackOk(r, h, f, {});
    hide Deliver, HandlerRegs, RunActs, ActsOk, WriteBack, Enter, TrapMem;
    ActsKeep(acts, e, NoErrorCode, f, Frame(NoErrorCode, f) + {f - 48});
  }

  /** The program goes on where, and with the flags, the debugger says, with everything else as it was:
      for every handler that, after whatever it does and whatever interrupts it, writes those two back. */
  lemma DebuggedProgramGoesOn(c: Cpu, handler: word, ret: word, acts: Acts, r: GdbStub.Regs, live: set<int>)
    requires TrapOk(Trap(NoErrorCode, handler, ret, acts), c, live)
    ensures var t := Trap(NoErrorCode, handler, ret, Append(acts, WriteBack(r)));
            && TrapOk(t, c, live)
            && RunTrap(t, c) == c.(eip := r.eip, eflags := r.eflags, mem := RunTrap(t, c).mem)
            && forall a: word :: a in live ==> RunTrap(t, c).mem[a] == c.mem[a]
  {
    var t0 := Trap(NoErrorCode, handler, ret, acts);
    var t := Trap(NoErrorCode, handler, ret, Append(acts, WriteBack(r)));
    var f := Plus(c.esp, -12);
    Delivered(c);
    var e := Enter(t0, Deliver(c));
    assert Enter(t, Deliver(c)) == e;
    hide Deliver, Enter, RunTrap, RunActs, WriteBack, ActsOk;
    AppendRuns(acts, WriteBack(r), e, NoErrorCode, f, live + Frame(NoErrorCode, f));
    AppendLast(acts, WriteBack(r), c.eip, c.eflags);
    WriteBackOk(r, RunActs(acts, e, f), f, live + Frame(NoErrorCode, f));
    WriteBackOk(r, c.(eip := LastEip(acts, c.eip), eflags := LastEflags(acts, c.eflags)), f, live);
    TrapRestores(t, c, live);
  }
}
