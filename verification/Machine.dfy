/** The part of a 32-bit x86 the context switch and the trap stubs use: registers, flags and memory
    as aligned words. */
module Machine {
  import opened Words

  /** The word at each address; only aligned addresses are used. */
  type Memory = m: seq<word> | |m| == 0x1_0000_0000 witness seq(0x1_0000_0000, _ => 0)

  datatype Cpu = Cpu(eax: word, ecx: word, edx: word, ebx: word, esp: word, ebp: word, esi: word, edi: word,
                     eip: word, eflags: word, cs: word, ds: word, es: word, fs: word, mem: Memory)

  /** 32-bit address arithmetic. */
  function Plus(a: word, d: int): word {
    if 0 <= a + d < 0x1_0000_0000 then a + d else Wrap(a + d)
  }

  /** `d(%reg)` as a source and as a destination. */
  function Load(c: Cpu, a: word, d: int): word {
    c.mem[Plus(a, d)]
  }

  function Store(c: Cpu, a: word, d: int, v: word): Cpu {
    c.(mem := c.mem[Plus(a, d) := v])
  }

  function Push(c: Cpu, v: word): Cpu {
    c.(esp := Plus(c.esp, -4), mem := c.mem[Plus(c.esp, -4) := v])
  }

  function Top(c: Cpu): word {
    c.mem[c.esp]
  }

  /** `add $n, %esp` (the flags it sets are never looked at in the code modelled). */
  function Discard(c: Cpu, n: nat): Cpu {
    c.(esp := Plus(c.esp, n))
  }

  function PopEax(c: Cpu): Cpu { Discard(c, 4).(eax := Top(c)) }
  function PopEcx(c: Cpu): Cpu { Discard(c, 4).(ecx := Top(c)) }
  function PopEdx(c: Cpu): Cpu { Discard(c, 4).(edx := Top(c)) }
  function PopEbx(c: Cpu): Cpu { Discard(c, 4).(ebx := Top(c)) }
  function PopEbp(c: Cpu): Cpu { Discard(c, 4).(ebp := Top(c)) }
  function PopEsi(c: Cpu): Cpu { Discard(c, 4).(esi := Top(c)) }
  function PopEdi(c: Cpu): Cpu { Discard(c, 4).(edi := Top(c)) }
  function PopDs(c: Cpu): Cpu { Discard(c, 4).(ds := Top(c)) }
  function PopEs(c: Cpu): Cpu { Discard(c, 4).(es := Top(c)) }
  function PopFs(c: Cpu): Cpu { Discard(c, 4).(fs := Top(c)) }
  function Popf(c: Cpu): Cpu { Discard(c, 4).(eflags := Top(c)) }
  function Ret(c: Cpu): Cpu { Discard(c, 4).(eip := Top(c)) }
  function Leave(c: Cpu): Cpu { PopEbp(c.(esp := c.ebp)) }

  /** `iret` without a change of privilege: eip, cs, eflags. */
  function Iret(c: Cpu): Cpu {
    c.(eip := Top(c), cs := Load(c, c.esp, 4), eflags := Load(c, c.esp, 8), esp := Plus(c.esp, 12))
  }

  /** `pusha` pushes the stack pointer as it was before. */
  function Pusha(c: Cpu): Cpu {
    Push(Push(Push(Push(Push(Push(Push(Push(c, c.eax), c.ecx), c.edx), c.ebx), c.esp), c.ebp), c.esi), c.edi)
  }

  /** `popa` skips the saved stack pointer. */
  function Popa(c: Cpu): Cpu {
    PopEax(PopEcx(PopEdx(PopEbx(Discard(PopEbp(PopEsi(PopEdi(c))), 4)))))
  }
}
