/** `cpu_context_init`, `cpu_context_save` and `cpu_context_load`, and threads that switch with them. */
module ContextSwitch {
  import opened Words
  import opened Machine

  const CANARY0_VAL: word := 0xAAAA_5555
  const CANARY1_VAL: word := 0xCCCC_3333
  const CANARY0 := 0x00
  const EAX := 0x04
  const ECX := 0x08
  const EDX := 0x0C
  const EBX := 0x10
  const ESP := 0x14
  const EBP := 0x18
  const ESI := 0x1C
  const EDI := 0x20
  const EFLAGS := 0x24
  const EIP := 0x28
  const CANARY1 := 0x2C
  const CONTEXT_SIZE := 0x30

  predicate ContextAt(ctx: word) {
    ctx % 4 == 0 && ctx + CONTEXT_SIZE <= 0x1_0000_0000
  }

  predicate Apart(a: int, n: int, b: int, m: int) {
    a + n <= b || b + m <= a
  }

  /** The registers a switch carries over. */
  datatype Saved = Saved(eax: word, ecx: word, edx: word, ebx: word, ebp: word, esi: word, edi: word,
                         eflags: word, esp: word, eip: word)

  function Of(c: Cpu): Saved {
    Saved(c.eax, c.ecx, c.edx, c.ebx, c.ebp, c.esi, c.edi, c.eflags, c.esp, c.eip)
  }

  /** A context block as `load` reads it: three words below the stack pointer it will leave with. */
  function Block(mem: Memory, ctx: word): Saved {
    Saved(mem[Plus(ctx, EAX)], mem[Plus(ctx, ECX)], mem[Plus(ctx, EDX)], mem[Plus(ctx, EBX)],
          mem[Plus(ctx, EBP)], mem[Plus(ctx, ESI)], mem[Plus(ctx, EDI)], mem[Plus(ctx, EFLAGS)],
          Plus(mem[Plus(ctx, ESP)], 12), mem[Plus(ctx, EIP)])
  }

  ghost predicate SameOutside(m: Memory, n: Memory, lo: int, hi: int, ctx: int) {
    forall a: word :: !(lo <= a < hi) && !(ctx <= a < ctx + CONTEXT_SIZE) ==> m[a] == n[a]
  }

  /** What `cpu_context_save` asks of its caller: a stack with room for three words below and the two
      arguments above the return address, away from the context block. */
  predicate SaveOk(c: Cpu) {
    && c.esp % 4 == 0 && 12 <= c.esp && c.esp + 12 <= 0x1_0000_0000
    && var ctx := Load(c, c.esp, 4);
       ContextAt(ctx) && Apart(ctx, CONTEXT_SIZE, c.esp - 12, 24)
  }

  /** `load` writes three words at the saved stack pointer, away from the block it is still reading. */
  predicate LoadOk(c: Cpu) {
    && var ctx := Load(c, c.esp, 4);
       && ContextAt(ctx)
       && var n: int := c.mem[ctx + ESP];
          n % 4 == 0 && n + 12 < 0x1_0000_0000 && Apart(ctx, CONTEXT_SIZE, n, 12)
  }

  /** Memory after `cpu_context_save`, write by write. */
  function SavedMem(c: Cpu, ctx: word, entry: word): Memory
    requires ContextAt(ctx) && 12 <= c.esp
  {
    var m := c.mem[c.esp - 4 := c.eax][c.esp - 8 := c.ebx];
    var m := m[ctx + EAX := c.eax][ctx + ECX := c.ecx][ctx + EDX := c.edx][ctx + EBX := c.ebx];
    var m := m[ctx + ESP := c.esp - 8][ctx + EBP := c.ebp][ctx + ESI := c.esi][ctx + EDI := c.edi];
    m[c.esp - 12 := c.eflags][ctx + EFLAGS := c.eflags][ctx + EIP := entry]
  }

  /** The stack words `save` still needs. */
  predicate Intact(m: Memory, e: word, ebx: word, eax: word, ret: word, entry: word)
    requires 8 <= e && e + 8 < 0x1_0000_0000
  {
    m[e - 8] == ebx && m[e - 4] == eax && m[e] == ret && m[e + 8] == entry
  }

  class Processor {
    var c: Cpu

    /** `cpu_context_save` */
    method CpuContextSave()
      requires SaveOk(c)
      modifies this
      ensures c == old(c).(esp := old(c).esp + 4, eip := Top(old(c)),
                           mem := SavedMem(old(c), Load(old(c), old(c).esp, 4), Load(old(c), old(c).esp, 8)))
    {
      var s := c;
      ghost var ctx, entry, ret := Load(s, s.esp, 4), Load(s, s.esp, 8), Top(s);
      s := SaveScratch(s, ctx, entry, ret);
      s := SavePointers(s, c, ctx, entry, ret);
      s := SaveFlags(s, c, ctx, entry, ret);
      assert s.mem == SavedMem(c, ctx, entry);
      c := s;
    }

    /** The start of `cpu_context_save`: eax and ebx pushed, the first four registers stored, the context's
        address left in eax. */
    method SaveScratch(before: Cpu, ghost ctx: word, ghost entry: word, ghost ret: word) returns (s: Cpu)
      requires SaveOk(before)
      requires ctx == Load(before, before.esp, 4) && entry == Load(before, before.esp, 8) && ret == Top(before)
      ensures Intact(s.mem, before.esp, before.ebx, before.eax, ret, entry)
      ensures s == before.(eax := ctx, esp := before.esp - 8,
                           mem := before.mem[before.esp - 4 := before.eax][before.esp - 8 := before.ebx]
                                            [ctx + EAX := before.eax][ctx + ECX := before.ecx]
                                            [ctx + EDX := before.edx][ctx + EBX := before.ebx])
    {
      s := before;
      s := Push(s, s.eax);
      s := Push(s, s.ebx);
      assert s.esp == before.esp - 8;
      s := s.(ebx := Load(s, s.esp, 0xC));
      assert s.ebx == ctx && Intact(s.mem, before.esp, before.ebx, before.eax, ret, entry);
      s := Store(s, s.ebx, EAX, s.eax);
      assert Intact(s.mem, before.esp, before.ebx, before.eax, ret, entry);
      s := Store(s, s.ebx, ECX, s.ecx);
      assert Intact(s.mem, before.esp, before.ebx, before.eax, ret, entry);
      s := Store(s, s.ebx, EDX, s.edx);
      assert Intact(s.mem, before.esp, before.ebx, before.eax, ret, entry);
      s := s.(eax := s.ebx);
      s := s.(ebx := Load(s, s.esp, 0x0));
      assert s.ebx == before.ebx;
      s := Store(s, s.eax, EBX, s.ebx);
      assert Intact(s.mem, before.esp, before.ebx, before.eax, ret, entry);
    }

    /** The middle of `cpu_context_save`: stack, frame and index registers. */
    method SavePointers(before: Cpu, ghost c0: Cpu, ghost ctx: word, ghost entry: word, ghost ret: word) returns (s: Cpu)
      requires SaveOk(c0) && ContextAt(ctx) && Apart(ctx, CONTEXT_SIZE, c0.esp - 12, 24)
      requires before.eax == ctx && Intact(before.mem, c0.esp, c0.ebx, c0.eax, ret, entry)
      ensures Intact(s.mem, c0.esp, c0.ebx, c0.eax, ret, entry)
      ensures s == before.(mem := before.mem[ctx + ESP := before.esp][ctx + EBP := before.ebp]
                                            [ctx + ESI := before.esi][ctx + EDI := before.edi])
    {
      s := before;
      s := Store(s, s.eax, ESP, s.esp);
      s := Store(s, s.eax, EBP, s.ebp);
      s := Store(s, s.eax, ESI, s.esi);
      s := Store(s, s.eax, EDI, s.edi);
    }

    /** The end of `cpu_context_save`, with the registers of `c0` stored and the context in eax: flags and
        entry, and the way back. */
    method SaveFlags(before: Cpu, ghost c0: Cpu, ghost ctx: word, ghost entry: word, ghost ret: word) returns (s: Cpu)
      requires SaveOk(c0) && ContextAt(ctx) && Apart(ctx, CONTEXT_SIZE, c0.esp - 12, 24)
      requires before.eax == ctx && before.esp == c0.esp - 8
      requires Intact(before.mem, c0.esp, c0.ebx, c0.eax, ret, entry)
      ensures s == before.(eax := c0.eax, ebx := c0.ebx, esp := c0.esp + 4, eip := ret,
                           mem := before.mem[c0.esp - 12 := before.eflags][ctx + EFLAGS := before.eflags][ctx + EIP := entry])
    {
      s := before;
      ghost var e := c0.esp;
      s := Push(s, s.eflags);
      assert Intact(s.mem, e, c0.ebx, c0.eax, ret, entry);
      s := PopEbx(s);
      assert s.ebx == before.eflags && s.esp == e - 8;
      s := Store(s, s.eax, EFLAGS, s.ebx);
      assert Intact(s.mem, e, c0.ebx, c0.eax, ret, entry);
      s := s.(ebx := Load(s, s.esp, 0x10));
      assert s.ebx == entry;
      s := Store(s, s.eax, EIP, s.ebx);
      assert Intact(s.mem, e, c0.ebx, c0.eax, ret, entry);
      s := PopEbx(s);
      s := PopEax(s);
      s := Ret(s);
    }

    /** `cpu_context_load` */
    method CpuContextLoad()
      requires LoadOk(c)
      modifies this
      ensures c == Loaded(old(c), Load(old(c), old(c).esp, 4))
    {
      var s := c;
      ghost var ctx, n := Load(s, s.esp, 4), Load(s, Load(s, s.esp, 4), ESP);
      s := s.(ebx := Load(s, s.esp, 0x4));
      s := s.(ecx := Load(s, s.ebx, ESP));
      s := s.(eax := Load(s, s.ebx, EIP));
      s := Store(s, s.ecx, 0x8, s.eax);
      s := s.(eax := Load(s, s.ebx, EFLAGS));
      s := Store(s, s.ecx, 0x4, s.eax);
      s := s.(eax := Load(s, s.ebx, EBP));
      s := Store(s, s.ecx, 0x0, s.eax);
      assert s.mem == LoadedMem(c, ctx);
      LoadedWords(c, ctx);
      hide LoadedMem, Block;
      s := SwitchStack(s, ctx, Block(c.mem, ctx));
      c := s;
    }

    /** The second half of `cpu_context_load`, with the three words in place. */
    method SwitchStack(before: Cpu, ghost ctx: word, ghost b: Saved) returns (s: Cpu)
      requires ContextAt(ctx) && before.ebx == ctx && Block(before.mem, ctx) == b
      requires var n: int := before.mem[ctx + ESP];
               && n + 12 < 0x1_0000_0000
               && before.mem[n] == b.ebp && before.mem[n + 4] == b.eflags && before.mem[n + 8] == b.eip
      ensures s == before.(eax := b.eax, ecx := b.ecx, edx := b.edx, ebx := b.ebx, ebp := b.ebp, esi := b.esi,
                           edi := b.edi, eflags := b.eflags, esp := b.esp, eip := b.eip)
    {
      s := before;
      s := s.(ebp := Load(s, s.ebx, ESP));
      s := s.(eax := Load(s, s.ebx, EAX));
      s := s.(ecx := Load(s, s.ebx, ECX));
      s := s.(edx := Load(s, s.ebx, EDX));
      s := s.(esi := Load(s, s.ebx, ESI));
      s := s.(edi := Load(s, s.ebx, EDI));
      s := s.(ebx := Load(s, s.ebx, EBX));
      s := Leave(s);
      s := Popf(s);
      s := Ret(s);
    }

    /** `cpu_context_init` */
    method CpuContextInit(ctx: word, sp: word, ssize: word, entry: word, arg: word)
      requires ContextAt(ctx) && FrameTop(sp, ssize) >= 16
      modifies this
      ensures c == old(c).(mem := InitMem(old(c).mem, ctx, FrameTop(sp, ssize), entry, arg))
    {
      var m := Memset(c.mem, ctx, CONTEXT_SIZE / 4);
      var pnewstack := Wrap(sp + ssize - 4) - Wrap(sp + ssize - 4) % 16;
      var ebpOrig := pnewstack;
      m := m[pnewstack := arg];
      pnewstack := pnewstack - 4;
      m := m[pnewstack := 0xDEAD_BEEF];
      pnewstack := pnewstack - 12;
      m := m[ctx + CANARY0 := CANARY0_VAL];
      m := m[ctx + EAX := 0];
      m := m[ctx + ECX := 0];
      m := m[ctx + EDX := 0];
      m := m[ctx + EBX := 0];
      m := m[ctx + ESP := pnewstack];
      m := m[ctx + EBP := ebpOrig];
      m := m[ctx + ESI := 0];
      m := m[ctx + EDI := 0];
      m := m[ctx + EFLAGS := 0x246];
      m := m[ctx + EIP := entry];
      m := m[ctx + CANARY1 := CANARY1_VAL];
      c := c.(mem := m);
    }
  }

  /** `n` zero words from `a` on. */
  function Zeroed(mem: Memory, a: word, n: nat): Memory
    requires a + 4 * n <= 0x1_0000_0000
  {
    if n == 0 then mem else Zeroed(mem, a, n - 1)[a + 4 * (n - 1) := 0]
  }

  method Memset(mem: Memory, a: word, n: nat) returns (m: Memory)
    requires a + 4 * n <= 0x1_0000_0000
    ensures m == Zeroed(mem, a, n)
    ensures forall i :: 0 <= i < n ==> m[a + 4 * i] == 0
  {
    m := mem;
    for i := 0 to n
      invariant m == Zeroed(mem, a, i)
      invariant forall k :: 0 <= k < i ==> m[a + 4 * k] == 0
    {
      m := m[a + 4 * i := 0];
    }
  }

  lemma {:induction false} ZeroedOutside(mem: Memory, a: word, n: nat, b: word)
    requires a + 4 * n <= 0x1_0000_0000 && !(a <= b < a + 4 * n)
    ensures Zeroed(mem, a, n)[b] == mem[b]
  {
    if n > 0 {
      ZeroedOutside(mem, a, n - 1, b);
    }
  }

  function LoadedMem(c: Cpu, ctx: word): Memory {
    var n, b := c.mem[Plus(ctx, ESP)], Block(c.mem, ctx);
    c.mem[Plus(n, 8) := b.eip][Plus(n, 4) := b.eflags][n := b.ebp]
  }

  /** The processor after `cpu_context_load`. */
  function Loaded(c: Cpu, ctx: word): Cpu {
    var b := Block(c.mem, ctx);
    c.(eax := b.eax, ecx := b.ecx, edx := b.edx, ebx := b.ebx, ebp := b.ebp, esi := b.esi, edi := b.edi,
       eflags := b.eflags, esp := b.esp, eip := b.eip, mem := LoadedMem(c, ctx))
  }

  /** The aligned top of a new stack, where the argument goes. */
  function FrameTop(sp: word, ssize: word): (p: word)
    ensures p % 16 == 0
  {
    Wrap(sp + ssize - 4) - Wrap(sp + ssize - 4) % 16
  }

  /** The words of a context block that `init` sets, in order. */
  function InitContext(mem: Memory, ctx: word, top: word, entry: word): Memory
    requires ContextAt(ctx) && top >= 16
  {
    var m := mem[ctx + CANARY0 := CANARY0_VAL][ctx + EAX := 0][ctx + ECX := 0][ctx + EDX := 0][ctx + EBX := 0];
    var m := m[ctx + ESP := top - 16][ctx + EBP := top][ctx + ESI := 0][ctx + EDI := 0];
    m[ctx + EFLAGS := 0x246][ctx + EIP := entry][ctx + CANARY1 := CANARY1_VAL]
  }

  function InitMem(mem: Memory, ctx: word, top: word, entry: word, arg: word): Memory
    requires ContextAt(ctx) && top >= 16
  {
    InitContext(Zeroed(mem, ctx, CONTEXT_SIZE / 4)[top := arg][top - 4 := 0xDEAD_BEEF], ctx, top, entry)
  }

  // ---------------------------------------------------------------- what the three routines establish

  predicate Canaries(mem: Memory, ctx: word) {
    mem[Plus(ctx, CANARY0)] == CANARY0_VAL && mem[Plus(ctx, CANARY1)] == CANARY1_VAL
  }

  /** Writing the three words changes neither the block nor what was just written. */
  lemma LoadedWords(c: Cpu, ctx: word)
    requires LoadOk(c) && ctx == Load(c, c.esp, 4)
    ensures var m, n, b := LoadedMem(c, ctx), c.mem[ctx + ESP], Block(c.mem, ctx);
            && Block(m, ctx) == b && m[ctx + ESP] == n
            && m[n] == b.ebp && m[n + 4] == b.eflags && m[n + 8] == b.eip
  {
  }

  lemma SavedRegisters(c: Cpu, ctx: word, entry: word)
    requires SaveOk(c) && ctx == Load(c, c.esp, 4)
    ensures Block(SavedMem(c, ctx, entry), ctx) == Of(c).(esp := c.esp + 4, eip := entry)
  {
  }

  lemma SavedOutside(c: Cpu, ctx: word, entry: word)
    requires SaveOk(c) && ctx == Load(c, c.esp, 4)
    ensures SameOutside(c.mem, SavedMem(c, ctx, entry), c.esp - 12, c.esp, ctx)
    ensures Canaries(c.mem, ctx) ==> Canaries(SavedMem(c, ctx, entry), ctx)
  {
  }

  /** Where a block keeps what. */
  lemma BlockWords(mem: Memory, ctx: word)
    requires ContextAt(ctx)
    ensures var b := Block(mem, ctx);
            && b.eax == mem[ctx + 4] && b.ecx == mem[ctx + 8] && b.edx == mem[ctx + 0xC] && b.ebx == mem[ctx + 0x10]
            && b.esp == Plus(mem[ctx + 0x14], 12) && b.ebp == mem[ctx + 0x18]
            && b.esi == mem[ctx + 0x1C] && b.edi == mem[ctx + 0x20]
            && b.eflags == mem[ctx + 0x24] && b.eip == mem[ctx + 0x28]
  {
  }

  /** A guard word at either end of the block. */
  lemma CanaryWords(mem: Memory, ctx: word)
    requires ContextAt(ctx)
    ensures Canaries(mem, ctx) <==> mem[ctx] == 0xAAAA_5555 && mem[ctx + 0x2C] == 0xCCCC_3333
  {
  }

  /** `save` leaves in the block what `load` needs to come back behind the call. */
  lemma SavedBlock(c: Cpu, ctx: word, entry: word)
    requires SaveOk(c) && ctx == Load(c, c.esp, 4)
    ensures var m := SavedMem(c, ctx, entry);
            && Block(m, ctx) == Of(c).(esp := c.esp + 4, eip := entry)
            && (Canaries(c.mem, ctx) ==> Canaries(m, ctx))
            && SameOutside(c.mem, m, c.esp - 12, c.esp, ctx)
  {
    SavedRegisters(c, ctx, entry);
    SavedOutside(c, ctx, entry);
    hide SavedMem, Block, Canaries, SameOutside, Of;
  }

  /** The registers a new thread starts with. */
  function Fresh(top: word, entry: word): Saved {
    Saved(0, 0, 0, 0, top, 0, 0, 0x246, Plus(top, -4), entry)
  }

  lemma ContextWritten(mem: Memory, ctx: word, top: word, entry: word)
    requires ContextAt(ctx) && top >= 16
    ensures var m := InitContext(mem, ctx, top, entry);
            && Block(m, ctx) == Fresh(top, entry) && Canaries(m, ctx)
            && forall a: word :: !(ctx <= a < ctx + CONTEXT_SIZE) ==> m[a] == mem[a]
  {
  }

  lemma InitBlock(mem: Memory, ctx: word, top: word, entry: word, arg: word)
    requires ContextAt(ctx) && top >= 16 && Apart(ctx, CONTEXT_SIZE, top - 16, 20)
    ensures var m := InitMem(mem, ctx, top, entry, arg);
            && Block(m, ctx) == Fresh(top, entry) && Canaries(m, ctx)
            && m[top] == arg && m[top - 4] == 0xDEAD_BEEF
            && SameOutside(mem, m, top - 4, top + 4, ctx)
  {
    var z := Zeroed(mem, ctx, CONTEXT_SIZE / 4);
    forall b: word | !(ctx <= b < ctx + CONTEXT_SIZE)
      ensures z[b] == mem[b]
    {
      ZeroedOutside(mem, ctx, CONTEXT_SIZE / 4, b);
    }
    ContextWritten(z[top := arg][top - 4 := 0xDEAD_BEEF], ctx, top, entry);
    hide InitContext, Block, Canaries, Zeroed, Fresh;
  }

  /** A stack of 35 bytes or more holds everything `init` and the first `load` write, wherever it lies;
      a smaller one does not for some position. */
  lemma StackFits(ssize: word)
    ensures (forall sp: word :: 4 <= sp + ssize < 0x1_0000_0000 ==>
               sp <= FrameTop(sp, ssize) - 16 && FrameTop(sp, ssize) + 4 <= sp as int + ssize) <==> ssize >= 35
  {
    if ssize < 35 {
      var sp := 0x1000 + 35 - ssize;
      assert FrameTop(sp, ssize) == 0x1010;
    }
  }

  // ---------------------------------------------------------------- threads

  datatype Home = Home(ctx: word, sp: word, ssize: word)

  predicate HomesOk(hs: seq<Home>) {
    && (forall i :: 0 <= i < |hs| ==>
          && ContextAt(hs[i].ctx) && hs[i].ssize >= 35 && hs[i].sp + hs[i].ssize < 0x1_0000_0000
          && Apart(hs[i].ctx, CONTEXT_SIZE, hs[i].sp, hs[i].ssize))
    && (forall i, j :: 0 <= i < |hs| && 0 <= j < |hs| && i != j ==>
          && Apart(hs[i].ctx, CONTEXT_SIZE, hs[j].ctx, CONTEXT_SIZE)
          && Apart(hs[i].ctx, CONTEXT_SIZE, hs[j].sp, hs[j].ssize)
          && Apart(hs[i].sp, hs[i].ssize, hs[j].sp, hs[j].ssize))
  }

  predicate OnStack(h: Home, a: word) {
    h.sp <= a < h.sp as int + h.ssize
  }

  predicate InContext(h: Home, a: word) {
    h.ctx <= a < h.ctx as int + CONTEXT_SIZE
  }

  /** What a context holds, and memory as it was when its thread last ran. */
  datatype Snap = Snap(regs: Saved, mem: Memory)

  datatype Sys = Sys(c: Cpu, current: nat, ready: map<nat, Snap>, marked: set<nat>)

  datatype Event = Compute(c: Cpu) | Save | Init(t: nat, entry: word, arg: word) | LoadContext(t: nat)

  /** The running thread writes neither contexts nor other threads' stacks. */
  ghost predicate Kept(hs: seq<Home>, current: nat, m: Memory, n: Memory) {
    forall i, a: word :: 0 <= i < |hs| && (InContext(hs[i], a) || (i != current && OnStack(hs[i], a))) ==> m[a] == n[a]
  }

  ghost predicate Enabled(hs: seq<Home>, s: Sys, e: Event) {
    s.current < |hs| &&
    match e
    case Compute(c) => Kept(hs, s.current, s.c.mem, c.mem)
    case Save =>
      && SaveOk(s.c) && Load(s.c, s.c.esp, 4) == hs[s.current].ctx
      && hs[s.current].sp <= s.c.esp - 12 && s.c.esp + 12 <= hs[s.current].sp as int + hs[s.current].ssize
    case Init(t, _, _) => t < |hs| && t != s.current
    case LoadContext(t) => t < |hs| && t in s.ready && Load(s.c, s.c.esp, 4) == hs[t].ctx
  }

  function TopOf(h: Home): word {
    FrameTop(h.sp, h.ssize)
  }

  lemma TopFits(hs: seq<Home>, t: nat)
    requires HomesOk(hs) && t < |hs|
    ensures hs[t].sp <= TopOf(hs[t]) - 16 && TopOf(hs[t]) + 4 <= hs[t].sp as int + hs[t].ssize
  {
    StackFits(hs[t].ssize);
  }

  /** The contexts once the running thread has been left. */
  function Departed(s: Sys): (r: map<nat, Snap>)
    ensures r.Keys == s.ready.Keys
    ensures forall t :: t in r ==> r[t].regs == s.ready[t].regs
  {
    if s.current in s.ready then s.ready[s.current := s.ready[s.current].(mem := s.c.mem)] else s.ready
  }

  function Step(hs: seq<Home>, s: Sys, e: Event): Sys
    requires HomesOk(hs) && Enabled(hs, s, e)
  {
    match e
    case Compute(c) => s.(c := c)
    case Save =>
      var ctx, entry := hs[s.current].ctx, Load(s.c, s.c.esp, 8);
      var c1 := s.c.(esp := s.c.esp + 4, eip := Top(s.c), mem := SavedMem(s.c, ctx, entry));
      s.(c := c1, ready := s.ready[s.current := Snap(Of(c1).(eip := entry), c1.mem)])
    case Init(t, entry, arg) =>
      TopFits(hs, t);
      var m := InitMem(s.c.mem, hs[t].ctx, TopOf(hs[t]), entry, arg);
      s.(c := s.c.(mem := m), ready := s.ready[t := Snap(Fresh(TopOf(hs[t]), entry), m)], marked := s.marked + {t})
    case LoadContext(t) =>
      s.(c := Loaded(s.c, hs[t].ctx), current := t, ready := Departed(s))
  }

  /** Every context holds its thread's registers, inside that thread's stack; a thread that is not
      running finds its stack as it left it; the canaries of every initialised context are in place. */
  ghost predicate Inv(hs: seq<Home>, s: Sys) {
    && HomesOk(hs) && s.current < |hs|
    && (forall t :: t in s.ready ==> t < |hs| && ThreadOk(hs[t], s.c.mem, s.ready[t], t != s.current))
    && (forall t :: t in s.marked ==> t < |hs| && Canaries(s.c.mem, hs[t].ctx))
  }

  ghost predicate ThreadOk(h: Home, mem: Memory, snap: Snap, away: bool) {
    && Block(mem, h.ctx) == snap.regs && snap.regs.esp % 4 == 0
    && h.sp + 12 <= snap.regs.esp && snap.regs.esp + 8 <= h.sp as int + h.ssize
    && (away ==> forall a: word :: OnStack(h, a) && a >= snap.regs.esp ==> mem[a] == snap.mem[a])
  }

  /** Memory changes that keep a context, and the stack of a thread that is away, keep the thread. */
  lemma ThreadKept(h: Home, m: Memory, n: Memory, snap: Snap, away: bool)
    requires ContextAt(h.ctx) && ThreadOk(h, m, snap, away)
    requires forall a: word :: InContext(h, a) || (away && OnStack(h, a)) ==> m[a] == n[a]
    ensures ThreadOk(h, n, snap, away)
  {
  }

  lemma CanariesKept(h: Home, m: Memory, n: Memory)
    requires ContextAt(h.ctx)
    requires forall a: word :: InContext(h, a) ==> m[a] == n[a]
    ensures Canaries(m, h.ctx) ==> Canaries(n, h.ctx)
  {
    assert InContext(h, h.ctx) && InContext(h, h.ctx + CANARY1);
  }

  lemma HomeOk(hs: seq<Home>, t: nat)
    requires HomesOk(hs) && t < |hs|
    ensures ContextAt(hs[t].ctx) && Apart(hs[t].ctx, CONTEXT_SIZE, hs[t].sp, hs[t].ssize)
    ensures hs[t].ssize >= 35 && hs[t].sp + hs[t].ssize < 0x1_0000_0000
  {
  }

  lemma ComputeKeeps(hs: seq<Home>, s: Sys, c: Cpu)
    requires Inv(hs, s) && Enabled(hs, s, Compute(c))
    ensures Inv(hs, Step(hs, s, Compute(c)))
  {
    hide HomesOk, ThreadOk, Canaries;
    forall t | t in s.ready
      ensures ThreadOk(hs[t], c.mem, s.ready[t], t != s.current)
    {
      HomeOk(hs, t);
      ThreadKept(hs[t], s.c.mem, c.mem, s.ready[t], t != s.current);
    }
    forall t | t in s.marked
      ensures Canaries(c.mem, hs[t].ctx)
    {
      HomeOk(hs, t);
      CanariesKept(hs[t], s.c.mem, c.mem);
    }
  }

  /** Only the context and the stack of one thread are written. */
  ghost predicate OnlyHome(h: Home, m: Memory, n: Memory) {
    forall a: word :: !InContext(h, a) && !OnStack(h, a) ==> m[a] == n[a]
  }

  lemma Separate(hs: seq<Home>, t: nat, u: nat, m: Memory, n: Memory)
    requires HomesOk(hs) && t < |hs| && u < |hs| && t != u && OnlyHome(hs[t], m, n)
    ensures forall a: word :: InContext(hs[u], a) || OnStack(hs[u], a) ==> m[a] == n[a]
  {
    assert Apart(hs[t].ctx, CONTEXT_SIZE, hs[u].ctx, CONTEXT_SIZE);
    assert Apart(hs[t].ctx, CONTEXT_SIZE, hs[u].sp, hs[u].ssize);
    assert Apart(hs[u].ctx, CONTEXT_SIZE, hs[t].sp, hs[t].ssize);
    assert Apart(hs[t].sp, hs[t].ssize, hs[u].sp, hs[u].ssize);
  }

  /** The other threads stay as they are; `departed` is the running one, if it now stops running. */
  lemma OthersKept(hs: seq<Home>, s: Sys, n: Memory, t: nat)
    requires Inv(hs, s) && t < |hs| && OnlyHome(hs[t], s.c.mem, n)
    ensures forall u :: u in s.ready && u != t ==> ThreadOk(hs[u], n, s.ready[u], u != s.current)
    ensures forall u :: u in s.ready && u != t ==> ThreadOk(hs[u], n, Departed(s)[u], true)
    ensures forall u :: u in s.marked && u != t ==> Canaries(n, hs[u].ctx)
  {
    hide HomesOk, ThreadOk, Canaries, OnlyHome, InContext, OnStack;
    forall u | u in s.ready && u != t
      ensures ThreadOk(hs[u], n, s.ready[u], u != s.current) && ThreadOk(hs[u], n, Departed(s)[u], true)
    {
      HomeOk(hs, u);
      Separate(hs, t, u, s.c.mem, n);
      ThreadKept(hs[u], s.c.mem, n, s.ready[u], u != s.current);
      if u == s.current {
        AwayNow(hs[u], s.c.mem, n, s.ready[u]);
      }
    }
    forall u | u in s.marked && u != t
      ensures Canaries(n, hs[u].ctx)
    {
      HomeOk(hs, u);
      Separate(hs, t, u, s.c.mem, n);
      CanariesKept(hs[u], s.c.mem, n);
    }
  }

  lemma AwayNow(h: Home, m: Memory, n: Memory, snap: Snap)
    requires ThreadOk(h, n, snap, false)
    requires forall a: word :: OnStack(h, a) ==> m[a] == n[a]
    ensures ThreadOk(h, n, snap.(mem := m), true)
  {
  }

  lemma SavedThread(h: Home, c: Cpu, entry: word)
    requires SaveOk(c) && Load(c, c.esp, 4) == h.ctx
    requires h.sp <= c.esp - 12 && c.esp + 12 <= h.sp as int + h.ssize
    ensures var m := SavedMem(c, h.ctx, entry);
            && OnlyHome(h, c.mem, m)
            && ThreadOk(h, m, Snap(Of(c).(esp := c.esp + 4, eip := entry), m), false)
            && (Canaries(c.mem, h.ctx) ==> Canaries(m, h.ctx))
  {
    SavedBlock(c, h.ctx, entry);
    assert c.esp % 4 == 0;
    hide SavedMem, SaveOk, Block, Canaries, Load, SameOutside, OnlyHome, OnStack;
    OutsideHome(h, c.mem, SavedMem(c, h.ctx, entry), c.esp - 12, c.esp as int);
  }

  lemma OutsideHome(h: Home, m: Memory, n: Memory, lo: int, hi: int)
    requires SameOutside(m, n, lo, hi, h.ctx) && h.sp <= lo && hi <= h.sp as int + h.ssize
    ensures OnlyHome(h, m, n)
  {
  }

  lemma SaveLocal(hs: seq<Home>, s: Sys)
    requires HomesOk(hs) && Enabled(hs, s, Save)
    ensures var s1, t := Step(hs, s, Save), s.current;
            && OnlyHome(hs[t], s.c.mem, s1.c.mem) && ThreadOk(hs[t], s1.c.mem, s1.ready[t], false)
            && (Canaries(s.c.mem, hs[t].ctx) ==> Canaries(s1.c.mem, hs[t].ctx))
  {
    SavedThread(hs[s.current], s.c, Load(s.c, s.c.esp, 8));
    hide HomesOk, SavedMem, OnlyHome, ThreadOk, Canaries;
  }

  lemma SaveKeeps(hs: seq<Home>, s: Sys)
    requires Inv(hs, s) && Enabled(hs, s, Save)
    ensures Inv(hs, Step(hs, s, Save))
  {
    hide HomesOk, ThreadOk, Canaries, OnlyHome, SavedMem;
    SaveLocal(hs, s);
    OthersKept(hs, s, Step(hs, s, Save).c.mem, s.current);
  }

  lemma InitLocal(hs: seq<Home>, s: Sys, t: nat, entry: word, arg: word)
    requires HomesOk(hs) && Enabled(hs, s, Init(t, entry, arg))
    ensures var s1 := Step(hs, s, Init(t, entry, arg));
            && OnlyHome(hs[t], s.c.mem, s1.c.mem) && ThreadOk(hs[t], s1.c.mem, s1.ready[t], true)
            && Canaries(s1.c.mem, hs[t].ctx)
    ensures var s1, top := Step(hs, s, Init(t, entry, arg)), TopOf(hs[t]);
            && top >= 16 && s1.ready[t].regs == Fresh(top, entry)
            && s1.ready[t].mem[top] == arg && s1.ready[t].mem[top - 4] == 0xDEAD_BEEF
            && OnStack(hs[t], top) && OnStack(hs[t], top - 4)
  {
    TopFits(hs, t);
    HomeOk(hs, t);
    hide HomesOk, InitMem, FrameTop, ThreadOk, OnlyHome, Canaries, OnStack;
    HomeInit(hs[t], s.c.mem, TopOf(hs[t]), entry, arg);
  }

  lemma HomeInit(h: Home, mem: Memory, top: word, entry: word, arg: word)
    requires ContextAt(h.ctx) && Apart(h.ctx, CONTEXT_SIZE, h.sp, h.ssize)
    requires top % 16 == 0 && h.sp <= top - 16 && top + 4 <= h.sp as int + h.ssize
    ensures var n := InitMem(mem, h.ctx, top, entry, arg);
            && OnlyHome(h, mem, n) && ThreadOk(h, n, Snap(Fresh(top, entry), n), true) && Canaries(n, h.ctx)
            && n[top] == arg && n[top - 4] == 0xDEAD_BEEF && OnStack(h, top) && OnStack(h, top - 4)
  {
    hide InitMem, Block, Canaries;
    InitBlock(mem, h.ctx, top, entry, arg);
  }

  lemma InitKeeps(hs: seq<Home>, s: Sys, t: nat, entry: word, arg: word)
    requires Inv(hs, s) && Enabled(hs, s, Init(t, entry, arg))
    ensures Inv(hs, Step(hs, s, Init(t, entry, arg)))
  {
    hide HomesOk, ThreadOk, Canaries, OnlyHome, InitMem;
    InitLocal(hs, s, t, entry, arg);
    OthersKept(hs, s, Step(hs, s, Init(t, entry, arg)).c.mem, t);
  }

  /** `load` writes only the three words below the stack pointer it leaves with. */
  lemma LoadWrites(c: Cpu, ctx: word)
    requires ContextAt(ctx) && Block(c.mem, ctx).esp >= 12
    ensures var esp := Block(c.mem, ctx).esp;
            forall a: word :: !(esp - 12 <= a < esp) ==> LoadedMem(c, ctx)[a] == c.mem[a]
  {
  }

  lemma LoadLocal(hs: seq<Home>, s: Sys, t: nat)
    requires HomesOk(hs) && t < |hs| && t in s.ready && ThreadOk(hs[t], s.c.mem, s.ready[t], false)
    ensures var n := LoadedMem(s.c, hs[t].ctx);
            && OnlyHome(hs[t], s.c.mem, n) && ThreadOk(hs[t], n, s.ready[t], false)
            && (Canaries(s.c.mem, hs[t].ctx) ==> Canaries(n, hs[t].ctx))
  {
    var n := LoadedMem(s.c, hs[t].ctx);
    LoadWrites(s.c, hs[t].ctx);
    HomeOk(hs, t);
    hide HomesOk, LoadedMem;
    assert forall a: word :: InContext(hs[t], a) ==> s.c.mem[a] == n[a];
    ThreadKept(hs[t], s.c.mem, n, s.ready[t], false);
    CanariesKept(hs[t], s.c.mem, n);
  }

  lemma LoadKeeps(hs: seq<Home>, s: Sys, t: nat)
    requires Inv(hs, s) && Enabled(hs, s, LoadContext(t))
    ensures Inv(hs, Step(hs, s, LoadContext(t)))
  {
    hide HomesOk, ThreadOk, Canaries, OnlyHome, LoadedMem;
    WhileRunning(hs[t], s.c.mem, s.ready[t], t != s.current);
    LoadLocal(hs, s, t);
    var n := LoadedMem(s.c, hs[t].ctx);
    OthersKept(hs, s, n, t);
    LoadedSnap(hs[t], n, s.ready[t], Departed(s)[t]);
    AfterLoad(hs, s, t, Loaded(s.c, hs[t].ctx));
  }

  lemma AfterLoad(hs: seq<Home>, s: Sys, t: nat, c: Cpu)
    requires Inv(hs, s) && t in s.ready
    requires forall u :: u in s.ready && u != t ==> ThreadOk(hs[u], c.mem, Departed(s)[u], true)
    requires ThreadOk(hs[t], c.mem, Departed(s)[t], false)
    requires forall u :: u in s.marked ==> Canaries(c.mem, hs[u].ctx)
    ensures Inv(hs, s.(c := c, current := t, ready := Departed(s)))
  {
    hide HomesOk, ThreadOk, Canaries;
  }

  lemma WhileRunning(h: Home, m: Memory, snap: Snap, away: bool)
    requires ThreadOk(h, m, snap, away)
    ensures ThreadOk(h, m, snap, false)
  {
  }

  lemma LoadedSnap(h: Home, n: Memory, snap: Snap, snap1: Snap)
    requires ThreadOk(h, n, snap, false) && snap1.regs == snap.regs
    ensures ThreadOk(h, n, snap1, false)
  {
  }

  lemma StepKeeps(hs: seq<Home>, s: Sys, e: Event)
    requires Inv(hs, s) && Enabled(hs, s, e)
    ensures Inv(hs, Step(hs, s, e))
  {
    match e
    case Compute(c) => ComputeKeeps(hs, s, c);
    case Save => SaveKeeps(hs, s);
    case Init(t, entry, arg) => InitKeeps(hs, s, t, entry, arg);
    case LoadContext(t) => LoadKeeps(hs, s, t);
  }

  /** Whatever has happened, a context that is ready can be loaded: the words `load` writes are the
      thread's own, below its stack pointer. */
  lemma LoadIsSafe(hs: seq<Home>, s: Sys, t: nat)
    requires Inv(hs, s) && Enabled(hs, s, LoadContext(t))
    ensures LoadOk(s.c)
    ensures forall a: word :: s.ready[t].regs.esp - 12 <= a < s.ready[t].regs.esp ==> OnStack(hs[t], a)
  {
    HomeOk(hs, t);
    hide LoadOk, HomesOk, ThreadOk, OnStack, Canaries, Block, Apart, Load;
    LoadFits(s.c, hs[t], s.ready[t], t != s.current);
  }

  lemma LoadFits(c: Cpu, h: Home, snap: Snap, away: bool)
    requires ContextAt(h.ctx) && Apart(h.ctx, CONTEXT_SIZE, h.sp, h.ssize) && ThreadOk(h, c.mem, snap, away)
    requires h.sp + h.ssize < 0x1_0000_0000 && Load(c, c.esp, 4) == h.ctx
    ensures LoadOk(c)
    ensures forall a: word :: snap.regs.esp - 12 <= a < snap.regs.esp ==> OnStack(h, a)
  {
    assert Block(c.mem, h.ctx) == snap.regs;
    hide ThreadOk, Block, Load;
  }

  /** Loading a context resumes its thread: registers, flags and program counter as captured, its stack
      from the stack pointer up as it was when it last ran, every other word but three untouched. */
  lemma LoadResumes(hs: seq<Home>, s: Sys, t: nat)
    requires Inv(hs, s) && Enabled(hs, s, LoadContext(t))
    ensures var c1, snap := Step(hs, s, LoadContext(t)).c, s.ready[t];
            && Of(c1) == snap.regs
            && (t != s.current ==> forall a: word :: OnStack(hs[t], a) && a >= c1.esp ==> c1.mem[a] == snap.mem[a])
            && (forall a: word :: !(c1.esp - 12 <= a < c1.esp) ==> c1.mem[a] == s.c.mem[a])
            && (t in s.marked ==> Canaries(c1.mem, hs[t].ctx))
  {
    LoadWrites(s.c, hs[t].ctx);
    LoadKeeps(hs, s, t);
  }

  // ---------------------------------------------------------------- any interleaving

  ghost predicate AllEnabled(hs: seq<Home>, s: Sys, es: seq<Event>)
    requires HomesOk(hs)
    decreases |es|
  {
    es != [] ==> Enabled(hs, s, es[0]) && AllEnabled(hs, Step(hs, s, es[0]), es[1..])
  }

  ghost function RunAll(hs: seq<Home>, s: Sys, es: seq<Event>): Sys
    requires HomesOk(hs) && AllEnabled(hs, s, es)
    decreases |es|
  {
    if es == [] then s else RunAll(hs, Step(hs, s, es[0]), es[1..])
  }

  /** Before anything has been initialised or saved. */
  function Start(c: Cpu, current: nat): Sys {
    Sys(c, current, map[], {})
  }

  lemma {:induction false} RunKeeps(hs: seq<Home>, s: Sys, es: seq<Event>)
    requires HomesOk(hs) && Inv(hs, s) && AllEnabled(hs, s, es)
    ensures Inv(hs, RunAll(hs, s, es))
    decreases |es|
  {
    hide Inv, Step, Enabled;
    if es != [] {
      StepKeeps(hs, s, es[0]);
      RunKeeps(hs, Step(hs, s, es[0]), es[1..]);
    }
  }

  /** Every run from the start, of any number of threads in any order, stays within the invariant. */
  lemma EveryRunIsSafe(hs: seq<Home>, c: Cpu, current: nat, es: seq<Event>)
    requires HomesOk(hs) && current < |hs| && AllEnabled(hs, Start(c, current), es)
    ensures Inv(hs, RunAll(hs, Start(c, current), es))
  {
    RunKeeps(hs, Start(c, current), es);
  }

  /** No event of the run captures a new context for thread `t`. */
  ghost predicate NotCaptured(hs: seq<Home>, s: Sys, es: seq<Event>, t: nat)
    requires HomesOk(hs) && AllEnabled(hs, s, es)
    decreases |es|
  {
    es != [] ==>
      && !(es[0].Save? && s.current == t) && !(es[0].Init? && es[0].t == t)
      && NotCaptured(hs, Step(hs, s, es[0]), es[1..], t)
  }

  lemma CaptureStep(hs: seq<Home>, s: Sys, e: Event, t: nat)
    requires HomesOk(hs) && Enabled(hs, s, e) && t in s.ready
    requires !(e.Save? && s.current == t) && !(e.Init? && e.t == t)
    ensures var s1 := Step(hs, s, e);
            && t in s1.ready && s1.ready[t].regs == s.ready[t].regs && s.marked <= s1.marked
            && (t != s.current && e != LoadContext(t) ==> s1.ready[t] == s.ready[t] && s1.current != t)
  {
    hide HomesOk, Kept, SaveOk, SavedMem, InitMem, LoadedMem;
  }

  lemma {:induction false} CaptureLasts(hs: seq<Home>, s: Sys, es: seq<Event>, t: nat)
    requires HomesOk(hs) && Inv(hs, s) && AllEnabled(hs, s, es) && NotCaptured(hs, s, es, t) && t in s.ready
    ensures var s1 := RunAll(hs, s, es);
            Inv(hs, s1) && t in s1.ready && s1.ready[t].regs == s.ready[t].regs && s.marked <= s1.marked
    decreases |es|
  {
    hide Inv, Step, Enabled;
    if es == [] {
    } else {
      StepKeeps(hs, s, es[0]);
      CaptureStep(hs, s, es[0], t);
      CaptureLasts(hs, Step(hs, s, es[0]), es[1..], t);
    }
  }

  /** A thread that saves its context and is loaded again, after any run of any threads in between,
      continues at the entry it gave, with the registers, flags and stack pointer it had on return from
      the save, and intact canaries. */
  lemma SavedThreadResumes(hs: seq<Home>, s: Sys, es: seq<Event>, s1: Sys, s2: Sys)
    requires HomesOk(hs) && Inv(hs, s) && Enabled(hs, s, Save) && s1 == Step(hs, s, Save)
    requires AllEnabled(hs, s1, es) && NotCaptured(hs, s1, es, s.current) && s2 == RunAll(hs, s1, es)
    requires Enabled(hs, s2, LoadContext(s.current))
    ensures var c := Step(hs, s2, LoadContext(s.current)).c;
            && Of(c) == Of(s.c).(esp := s.c.esp + 4, eip := Load(s.c, s.c.esp, 8))
            && (s.current in s.marked ==> Canaries(c.mem, hs[s.current].ctx))
  {
    hide AllEnabled, RunAll, NotCaptured, Inv;
    SaveKeeps(hs, s);
    CaptureLasts(hs, s1, es, s.current);
    LoadResumes(hs, s2, s.current);
  }

  /** While a thread is away, its stack from its stack pointer up is as it left it when it is loaded. */
  lemma AwayStackIsKept(hs: seq<Home>, s: Sys, es: seq<Event>, t: nat, s2: Sys, a: word)
    requires HomesOk(hs) && Inv(hs, s) && t < |hs| && t in s.ready && t != s.current
    requires AllEnabled(hs, s, es) && NotCaptured(hs, s, es, t) && NotLoaded(es, t) && s2 == RunAll(hs, s, es)
    requires Enabled(hs, s2, LoadContext(t))
    requires OnStack(hs[t], a) && a >= s.ready[t].regs.esp
    ensures Step(hs, s2, LoadContext(t)).c.mem[a] == s.ready[t].mem[a]
  {
    hide AllEnabled, RunAll, NotCaptured, NotLoaded, Inv, Step, HomesOk, OnStack, Canaries;
    StackLasts(hs, s, es, t);
    CaptureLasts(hs, s, es, t);
    LoadResumes(hs, s2, t);
  }

  /** A thread that hands over to another one has its stack back when it is loaded, from its saved stack
      pointer up as it was when it left, although `load` has overwritten the three words below. */
  lemma LeftStackIsKept(hs: seq<Home>, s: Sys, u: nat, es: seq<Event>, s1: Sys, s2: Sys, a: word)
    requires Inv(hs, s) && s.current in s.ready && u != s.current
    requires Enabled(hs, s, LoadContext(u)) && s1 == Step(hs, s, LoadContext(u))
    requires AllEnabled(hs, s1, es) && NotCaptured(hs, s1, es, s.current) && NotLoaded(es, s.current)
    requires s2 == RunAll(hs, s1, es) && Enabled(hs, s2, LoadContext(s.current))
    requires OnStack(hs[s.current], a) && a >= s.ready[s.current].regs.esp
    ensures Step(hs, s2, LoadContext(s.current)).c.mem[a] == s.c.mem[a]
  {
    Leaves(hs, s, u);
    assert HomesOk(hs);
    hide AllEnabled, RunAll, NotCaptured, NotLoaded, HomesOk, OnStack, Step, Kept, Inv;
    LoadKeeps(hs, s, u);
    AwayStackIsKept(hs, s1, es, s.current, s2, a);
  }

  lemma Leaves(hs: seq<Home>, s: Sys, u: nat)
    requires HomesOk(hs) && s.current in s.ready && Enabled(hs, s, LoadContext(u))
    ensures var s1 := Step(hs, s, LoadContext(u));
            && s.current < |hs| && s1.current == u
            && s.current in s1.ready && s1.ready[s.current] == s.ready[s.current].(mem := s.c.mem)
  {
    hide HomesOk, Loaded;
  }

  /** The running thread computes and initialises other contexts, without saving or handing over, and every
      computation leaves `v` at `a`. */
  predicate Stays(ds: seq<Event>, a: word, v: word) {
    forall i :: 0 <= i < |ds| ==> ds[i].Init? || (ds[i].Compute? && ds[i].c.mem[a] == v)
  }

  lemma OthersReady(hs: seq<Home>, s: Sys, t: nat, entry: word, arg: word, u: nat)
    requires HomesOk(hs) && Enabled(hs, s, Init(t, entry, arg)) && u != t
    ensures var s1 := Step(hs, s, Init(t, entry, arg));
            && s1.current == s.current
            && (u in s.ready ==> u in s1.ready && s1.ready[u] == s.ready[u])
  {
    hide HomesOk, InitMem, Fresh, FrameTop;
  }

  lemma StayStep(hs: seq<Home>, s: Sys, e: Event, a: word)
    requires Inv(hs, s) && Enabled(hs, s, e) && OnStack(hs[s.current], a)
    requires e.Init? || (e.Compute? && e.c.mem[a] == s.c.mem[a])
    ensures var s1 := Step(hs, s, e);
            && s1.current == s.current && s1.c.mem[a] == s.c.mem[a]
            && (s.current in s.ready ==> s.current in s1.ready && s1.ready[s.current] == s.ready[s.current])
  {
    if e.Init? {
      InitLocal(hs, s, e.t, e.entry, e.arg);
      OthersReady(hs, s, e.t, e.entry, e.arg, s.current);
      assert HomesOk(hs) && e == Init(e.t, e.entry, e.arg) && e.t != s.current && e.t < |hs|;
      var n := Step(hs, s, e).c.mem;
      hide Step, Inv, HomesOk, OnlyHome, OnStack, InContext, Fresh, FrameTop;
      Separate(hs, e.t, s.current, s.c.mem, n);
    }
  }

  lemma {:induction false} StayRun(hs: seq<Home>, s: Sys, ds: seq<Event>, a: word)
    requires HomesOk(hs) && Inv(hs, s) && AllEnabled(hs, s, ds) && s.current in s.ready
    requires OnStack(hs[s.current], a) && Stays(ds, a, s.c.mem[a])
    ensures var s1 := RunAll(hs, s, ds);
            && Inv(hs, s1) && s1.current == s.current && s1.c.mem[a] == s.c.mem[a]
            && s1.current in s1.ready && s1.ready[s1.current] == s.ready[s.current]
    decreases |ds|
  {
    hide Step, Enabled, OnStack, Inv;
    if ds != [] {
      StepKeeps(hs, s, ds[0]);
      StayStep(hs, s, ds[0], a);
      StayRun(hs, Step(hs, s, ds[0]), ds[1..], a);
    }
  }

  /** After the save a thread goes on for a while, hands over to `u`, and is loaded again after any run of
      any threads: every word of its stack from the stack pointer of the save's return up that it did not
      itself overwrite in the meantime is as it was at the save. */
  lemma SwitchedStackIsKept(hs: seq<Home>, s: Sys, ds: seq<Event>, s0: Sys, u: nat, es: seq<Event>, s1: Sys, s2: Sys,
                            a: word)
    requires Inv(hs, s) && Enabled(hs, s, Save)
    requires OnStack(hs[s.current], a) && a >= s.c.esp + 4
    requires AllEnabled(hs, Step(hs, s, Save), ds) && Stays(ds, a, s.c.mem[a]) && s0 == RunAll(hs, Step(hs, s, Save), ds)
    requires u != s.current && Enabled(hs, s0, LoadContext(u)) && s1 == Step(hs, s0, LoadContext(u))
    requires AllEnabled(hs, s1, es) && NotCaptured(hs, s1, es, s.current) && NotLoaded(es, s.current)
    requires s2 == RunAll(hs, s1, es) && Enabled(hs, s2, LoadContext(s.current))
    ensures Step(hs, s2, LoadContext(s.current)).c.mem[a] == s.c.mem[a]
  {
    SavedAt(hs, s, a);
    hide AllEnabled, RunAll, NotCaptured, NotLoaded, HomesOk, OnStack, Step, Stays, Inv, Enabled;
    SaveKeeps(hs, s);
    StayRun(hs, Step(hs, s, Save), ds, a);
    LeftStackIsKept(hs, s0, u, es, s1, s2, a);
  }

  lemma SavedAt(hs: seq<Home>, s: Sys, a: word)
    requires HomesOk(hs) && Enabled(hs, s, Save) && OnStack(hs[s.current], a) && a >= s.c.esp + 4
    ensures var s1 := Step(hs, s, Save);
            && s1.current == s.current && s.current in s1.ready
            && s1.c.mem[a] == s.c.mem[a] && s1.ready[s.current].regs.esp == s.c.esp + 4
  {
    HomeOk(hs, s.current);
    hide HomesOk, Kept;
    SavedBlock(s.c, hs[s.current].ctx, Load(s.c, s.c.esp, 8));
    hide SavedMem;
  }

  /** And such a hand-over is always open to it: behind a save it can push the context of any thread that
      is ready and call `load`, overwriting nothing at or above the stack pointer of the save's return. */
  lemma HandOverIsOpen(hs: seq<Home>, s: Sys, u: nat, ret: word)
    requires Inv(hs, s) && Enabled(hs, s, Save) && u in s.ready && u != s.current
    ensures var s1 := Step(hs, s, Save);
            var e := Compute(Push(Push(s1.c, hs[u].ctx), ret));
            && Enabled(hs, s1, e) && Enabled(hs, Step(hs, s1, e), LoadContext(u))
            && forall a: word :: a >= s.c.esp + 4 ==> e.c.mem[a] == s1.c.mem[a]
  {
    var s1 := Step(hs, s, Save);
    assert u < |hs|;
    HomeOk(hs, s.current);
    hide Inv, Kept, SavedMem, SaveOk;
    CallIsOpen(hs, s1, u, ret);
  }

  lemma CallIsOpen(hs: seq<Home>, s: Sys, u: nat, ret: word)
    requires HomesOk(hs) && s.current < |hs| && u < |hs| && u in s.ready
    requires hs[s.current].sp + 8 <= s.c.esp && s.c.esp <= hs[s.current].sp as int + hs[s.current].ssize
    ensures var e := Compute(Push(Push(s.c, hs[u].ctx), ret));
            && Enabled(hs, s, e) && Enabled(hs, Step(hs, s, e), LoadContext(u))
            && forall a: word :: a >= s.c.esp ==> e.c.mem[a] == s.c.mem[a]
  {
    var c := Push(Push(s.c, hs[u].ctx), ret);
    assert c.esp == s.c.esp - 8 && Load(c, c.esp, 4) == hs[u].ctx;
    OwnStackOnly(hs, s.current, s.c.mem, c.mem, s.c.esp - 8, s.c.esp as int);
    hide HomesOk, Kept, Push, Load;
  }

  lemma OwnStackOnly(hs: seq<Home>, t: nat, m: Memory, n: Memory, lo: int, hi: int)
    requires HomesOk(hs) && t < |hs| && hs[t].sp <= lo && hi <= hs[t].sp as int + hs[t].ssize
    requires forall a: word :: !(lo <= a < hi) ==> m[a] == n[a]
    ensures Kept(hs, t, m, n)
  {
  }

  /** A new thread, whenever it is first loaded, enters its entry as a call with one argument: the stack
      pointer is 4 short of a multiple of 16, the return address is the invalid one, the argument lies
      above it, and the frame pointer is the top of the stack (System V i386 psABI, section 2.2.2). */
  lemma NewThreadIsCalled(hs: seq<Home>, s: Sys, t: nat, entry: word, arg: word, es: seq<Event>, s1: Sys, s2: Sys)
    requires HomesOk(hs) && Inv(hs, s) && Enabled(hs, s, Init(t, entry, arg)) && s1 == Step(hs, s, Init(t, entry, arg))
    requires AllEnabled(hs, s1, es) && NotCaptured(hs, s1, es, t) && NotLoaded(es, t) && s2 == RunAll(hs, s1, es)
    requires Enabled(hs, s2, LoadContext(t))
    ensures var c := Step(hs, s2, LoadContext(t)).c;
            && c.eip == entry && c.eflags == 0x246 && (c.esp + 4) % 16 == 0 && c.ebp as int == c.esp + 4
            && c.eax == 0 && c.ecx == 0 && c.edx == 0 && c.ebx == 0 && c.esi == 0 && c.edi == 0
            && c.ebp == TopOf(hs[t])
            && c.mem[c.esp] == 0xDEAD_BEEF && c.mem[c.esp + 4] == arg
            && Canaries(c.mem, hs[t].ctx)
  {
    hide AllEnabled, RunAll, NotCaptured, NotLoaded, Inv, Step, HomesOk;
    InitKeeps(hs, s, t, entry, arg);
    InitLocal(hs, s, t, entry, arg);
    InitReady(hs, s, t, entry, arg);
    CaptureLasts(hs, s1, es, t);
    StackLasts(hs, s1, es, t);
    LoadResumes(hs, s2, t);
  }

  lemma InitReady(hs: seq<Home>, s: Sys, t: nat, entry: word, arg: word)
    requires HomesOk(hs) && Enabled(hs, s, Init(t, entry, arg))
    ensures var s1 := Step(hs, s, Init(t, entry, arg)); t in s1.ready && t in s1.marked && t != s1.current
  {
  }

  predicate NotLoaded(es: seq<Event>, t: nat) {
    forall i :: 0 <= i < |es| && es[i].LoadContext? ==> es[i].t != t
  }

  lemma {:induction false} StackLasts(hs: seq<Home>, s: Sys, es: seq<Event>, t: nat)
    requires HomesOk(hs) && Inv(hs, s) && AllEnabled(hs, s, es) && NotCaptured(hs, s, es, t) && NotLoaded(es, t)
    requires t in s.ready && t != s.current
    ensures var s1 := RunAll(hs, s, es);
            t in s1.ready && s1.ready[t] == s.ready[t] && s1.current != t
    decreases |es|
  {
    hide Inv, Step, Enabled;
    if es == [] {
    } else {
      StepKeeps(hs, s, es[0]);
      CaptureStep(hs, s, es[0], t);
      StackLasts(hs, Step(hs, s, es[0]), es[1..], t);
    }
  }
}
