/** The command interpreter and the resume state machine of gdb.c. */
module GdbStub {
  import opened Words
  import opened HexText
  import opened DebugPort
  import opened Packets
  import opened Breakpoints

  const EXC_DB := 1
  const EXC_BP := 3

  /** -1 in a restore field, seen as a word. */
  const NO_ADDRESS: word := 0xFFFF_FFFF

  /** `struct ia32_regs`. */
  datatype Regs = Regs(eax: word, ecx: word, edx: word, ebx: word, esp: word, ebp: word, esi: word, edi: word,
                       eip: word, eflags: word, es: word, cs: word, ss: word, ds: word, fs: word, gs: word)

  /** The file-scope state of gdb.c and debug.c. */
  datatype Stub = Stub(patch: Patch, phase: int, restoreStep: word, restoreContinue: word,
                       recvBuf: string, sendBuf: string)

  predicate StubShape(s: Stub) {
    && Shape(s.patch)
    && |s.recvBuf| == BUFFER_SIZE && s.recvBuf[BUFFER_SIZE - 1] == '\0'
    && |s.sendBuf| == BUFFER_SIZE && s.sendBuf[BUFFER_SIZE - 1] == '\0'
  }

  // ---------------------------------------------------------------- the trap flag

  predicate HasTrapFlag(eflags: word) {
    eflags / 0x100 % 2 == 1
  }

  /** All bits but the trap flag agree. */
  predicate SameOtherFlags(a: word, b: word) {
    a % 0x100 == b % 0x100 && a / 0x200 == b / 0x200
  }

  /** `eflags |= 0x100` */
  function SetTrapFlag(eflags: word): (r: word)
    ensures HasTrapFlag(r) && SameOtherFlags(r, eflags)
  {
    if HasTrapFlag(eflags) then eflags
    else
      FlagValue(eflags);
      eflags + 0x100
  }

  /** `eflags &= ~0x100` */
  function ClearTrapFlag(eflags: word): (r: word)
    ensures !HasTrapFlag(r) && SameOtherFlags(r, eflags)
  {
    if HasTrapFlag(eflags) then
      FlagValue(eflags - 0x100);
      eflags - 0x100
    else eflags
  }

  lemma FlagValue(low: int)
    requires 0 <= low && low + 0x100 < 0x1_0000_0000 && (low / 0x100 % 2 == 0 || (low + 0x100) / 0x100 % 2 == 1)
    ensures low < 0x1_0000_0000 - 0x100 && !HasTrapFlag(low) && HasTrapFlag(low + 0x100)
    ensures SameOtherFlags(low, low + 0x100)
  {
    var q, r := low / 0x200, low % 0x200;
    assert (low + 0x100) / 0x100 == low / 0x100 + 1;
    assert low / 0x100 == 2 * q + r / 0x100;
    assert r < 0x100;
    assert (low + 0x100) / 0x200 == q;
  }

  // ---------------------------------------------------------------- commands

  /** `strncmp(ptr, lit, strlen(lit)) == 0` with `ptr` at position `i`. */
  predicate StartsWith(s: string, i: nat, lit: string) {
    i + |lit| <= |s| && s[i..i + |lit|] == lit
  }

  /** The replies that are fixed texts; unknown requests get the empty one. */
  function FixedReply(pkt: string): (text: string)
    ensures |text| < BUFFER_SIZE - 1
  {
    var c := At(pkt, 0);
    if c == 'q' then
      if StartsWith(pkt, 1, "Supported:") then "PacketSize=1000"
      else if StartsWith(pkt, 1, "fThreadInfo") then "m1"
      else if StartsWith(pkt, 1, "sThreadInfo") then "l"
      else if StartsWith(pkt, 1, "ThreadExtraInfo,1") then "4350552330205b72756e6e696e675d"
      else if At(pkt, 1) == 'C' then "QC1"
      else ""
    else if c == 'H' then
      // only two characters of "c-1" are compared
      if StartsWith(pkt, 1, "g0") || StartsWith(pkt, 1, "c-") then "OK" else ""
    else if c == '?' then "T05thread:01;"
    else if c == 'v' then
      if StartsWith(pkt, 1, "Cont") && At(pkt, 5) == '?' then "vCont;c;C;s;S" else ""
    else if c == 'T' then
      if At(pkt, 1) == '1' then "OK" else ""
    else ""
  }

  /** The order of a `g` reply. */
  function RegisterList(t: Regs): (ws: seq<word>)
    ensures |ws| == 16
  {
    [t.eax, t.ecx, t.edx, t.ebx, t.esp, t.ebp, t.esi, t.edi, t.eip, t.eflags, t.cs, t.ss, t.ds, t.es, t.fs, t.gs]
  }

  /** Address and length of `m`, if both have digits. */
  function ParseRead(pkt: string): Option<(word, word)> {
    if |pkt| == 0 then None
    else
      var e1 := HexEnd(pkt, 1);
      if e1 == 1 || At(pkt, e1) != ',' then None
      else
        var e2 := HexEnd(pkt, e1 + 1);
        if e2 == e1 + 1 then None else Some((HexWord(pkt, 1, e1), HexWord(pkt, e1 + 1, e2)))
  }

  /** `Z0,addr,kind` and `z0,addr,kind`; missing digits count as 0. */
  datatype Point = Malformed | BadKind | Target(addr: word)

  function ParsePoint(pkt: string): Point {
    if At(pkt, 1) != '0' || At(pkt, 2) != ',' then Malformed
    else
      var e1 := HexEnd(pkt, 3);
      if At(pkt, e1) != ',' then Malformed
      else
        var e2 := HexEnd(pkt, e1 + 1);
        if HexWord(pkt, e1 + 1, e2) != 1 then BadKind else Target(HexWord(pkt, 3, e1))
  }

  datatype Resumption = Step | Continue

  function ParseResume(pkt: string): Option<Resumption> {
    if At(pkt, 0) != 'v' || !StartsWith(pkt, 1, "Cont") || At(pkt, 5) != ';' then None
    else if At(pkt, 6) == 's' then Some(Step)
    else if At(pkt, 6) == 'c' then Some(Continue)
    else None
  }

  /** What one packet leads to: a reply left in the send buffer, the end of the conversation, the
      endless loop of a bad breakpoint length, or a dump that does not fit the send buffer. */
  datatype Verdict = Answer(s: Stub) | Leave(s: Stub, t: Regs) | Panic | Overrun

  function Say(s: Stub, text: string): (s': Stub)
    requires StubShape(s) && |text| < BUFFER_SIZE - 1
    ensures StubShape(s')
  {
    s.(sendBuf := StrCpy(s.sendBuf, text))
  }

  function ReadMemory(end: word, s: Stub, addr: word, length: word): (v: Verdict)
    requires StubShape(s)
    ensures v.Answer? ==> StubShape(v.s)
  {
    if Signed(length) > 511 then Overrun
    else
      var table, masked := s.patch.table, MaskAll(s.patch.table, s.patch.mem);
      var text := HexBytes(ShownBytes(masked, end, addr, Signed(length)));
      Answer(Say(s, text).(patch := Patch(table, UnmaskAll(table, masked))))
  }

  function ResumeAt(s: Stub, t: Regs, how: Resumption): (v: Verdict)
    requires StubShape(s)
    ensures v.Leave? && StubShape(v.s)
  {
    var hit := s.patch.mem[t.eip] == INSN_BREAKPOINT;
    var s1 := if hit then s.(patch := Mask(s.patch, t.eip)) else s;
    match how
    case Step =>
      Leave(if hit then s1.(restoreStep := t.eip) else s1, t.(eflags := SetTrapFlag(t.eflags)))
    case Continue =>
      Leave((if hit then s1.(restoreContinue := t.eip) else s1).(phase := 2),
            t.(eflags := if hit then SetTrapFlag(t.eflags) else ClearTrapFlag(t.eflags)))
  }

  function CommandRead(end: word, s: Stub, pkt: string): (v: Verdict)
    requires StubShape(s)
    ensures !v.Leave? && (v.Answer? ==> StubShape(v.s) && v.s.recvBuf == s.recvBuf)
  {
    match ParseRead(pkt)
    case None => Answer(Say(s, "E01"))
    case Some((addr, length)) => ReadMemory(end, s, addr, length)
  }

  /** `Z` sets and `z` clears a breakpoint. */
  function CommandPoint(s: Stub, pkt: string): (v: Verdict)
    requires StubShape(s)
    ensures !v.Leave? && (v.Answer? ==> StubShape(v.s) && v.s.recvBuf == s.recvBuf)
  {
    match ParsePoint(pkt)
    case Malformed => Answer(s)
    case BadKind => Panic
    case Target(addr) =>
      Answer(Say(s, "OK").(patch := if At(pkt, 0) == 'Z' then Add(s.patch, addr) else Remove(s.patch, addr)))
  }

  /** The `switch` on the first character of a packet. */
  function Dispatch(end: word, s: Stub, t: Regs, pkt: string): (v: Verdict)
    requires StubShape(s)
    ensures v.Answer? || v.Leave? ==> StubShape(v.s) && v.s.recvBuf == s.recvBuf
  {
    var c := At(pkt, 0);
    if c == 'g' then Answer(s.(sendBuf := Splice(s.sendBuf, 0, WordsText(RegisterList(t)))))
    else if c == 'm' then CommandRead(end, s, pkt)
    else if c == 'Z' || c == 'z' then CommandPoint(s, pkt)
    else match ParseResume(pkt)
         case Some(how) => ResumeAt(s, t, how)
         case None => Answer(if FixedReply(pkt) == "" then s else Say(s, FixedReply(pkt)))
  }

  /** One packet: the reply is emptied first. */
  function Command(end: word, s: Stub, t: Regs, pkt: string): (v: Verdict)
    requires StubShape(s)
    ensures v.Answer? || v.Leave? ==> StubShape(v.s) && v.s.recvBuf == s.recvBuf
  {
    Dispatch(end, s.(sendBuf := s.sendBuf[0 := '\0']), t, pkt)
  }

  // ---------------------------------------------------------------- the conversation

  /** How `gdb_converse` ends on a given input: it returns, or it never does. */
  datatype Ended = Hangs | Returns(s: Stub, t: Regs, rest: string, out: string)

  lemma PutShortens(text: string, input: string, out: string)
    ensures Put(text, input, out).Acked? ==> |Put(text, input, out).rest| < |input|
  {
  }

  function Session(end: word, s: Stub, t: Regs, input: string, out: string): (e: Ended)
    requires StubShape(s)
    ensures e.Returns? ==> StubShape(e.s)
    decreases |input|
  {
    match Hunt(s.recvBuf, input, out)
    case Waiting => Hangs
    case Delivered(buf, start, rest, out1) =>
      match Command(end, s.(recvBuf := buf), t, CString(buf, start))
      case Panic => Hangs
      case Overrun => Hangs
      case Leave(s1, t1) => Returns(s1, t1, rest, out1)
      case Answer(s1) =>
        PutShortens(CString(s1.sendBuf, 0), rest, out1);
        match Put(CString(s1.sendBuf, 0), rest, out1)
        case Unanswered => Hangs
        case Acked(rest2, out2) => Session(end, s1, t, rest2, out2)
  }

  /** One round of a session. */
  function AfterPacket(end: word, v: Verdict, t: Regs, rest: string, out: string): Ended
    requires v.Answer? ==> StubShape(v.s)
  {
    match v
    case Panic => Hangs
    case Overrun => Hangs
    case Leave(s1, t1) => Returns(s1, t1, rest, out)
    case Answer(s1) =>
      match Put(CString(s1.sendBuf, 0), rest, out)
      case Unanswered => Hangs
      case Acked(rest2, out2) => Session(end, s1, t, rest2, out2)
  }

  function Round(end: word, s: Stub, t: Regs, r: Reception): Ended
    requires StubShape(s)
    requires r.Delivered? ==> |r.buf| == BUFFER_SIZE && r.buf[BUFFER_SIZE - 1] == '\0' && r.start <= 3
  {
    match r
    case Waiting => Hangs
    case Delivered(buf, start, rest, out) =>
      AfterPacket(end, Command(end, s.(recvBuf := buf), t, CString(buf, start)), t, rest, out)
  }

  lemma SessionStep(end: word, s: Stub, t: Regs, input: string, out: string)
    requires StubShape(s)
    ensures Session(end, s, t, input, out) == Round(end, s, t, Hunt(s.recvBuf, input, out))
  {
  }

  const STOP_REPLY := "T05thread:01;"

  /** The entry of `gdb_converse`, up to the stop reply. `None` stands for the silent return that
      follows the step over a breakpoint on continue. */
  function Entered(s: Stub, trapno: int, t: Regs): (r: (Stub, Option<Regs>))
    requires StubShape(s)
    ensures StubShape(r.0)
  {
    if trapno == EXC_DB && s.restoreContinue != NO_ADDRESS then
      (s.(patch := Unmask(s.patch, s.restoreContinue), restoreContinue := NO_ADDRESS), None)
    else
      var t1 := if trapno == EXC_BP then t.(eip := Wrap(t.eip - 1)) else t;
      var s1 := if trapno == EXC_DB && s.restoreStep != NO_ADDRESS
                then s.(patch := Unmask(s.patch, s.restoreStep), restoreStep := NO_ADDRESS) else s;
      if s1.phase == 0 then (s1.(phase := 1), Some(t1.(eip := Wrap(t1.eip + 1)))) else (s1, Some(t1))
  }

  function Conversation(end: word, s: Stub, trapno: int, t: Regs, input: string, out: string): (e: Ended)
    requires StubShape(s)
    ensures e.Returns? ==> StubShape(e.s)
  {
    match Entered(s, trapno, t)
    case (s1, None) => Returns(s1, t.(eflags := ClearTrapFlag(t.eflags)), input, out)
    case (s1, Some(t1)) =>
      match Put(STOP_REPLY, input, out)
      case Unanswered => Hangs
      case Acked(rest, out1) => Session(end, s1, t1, rest, out1)
  }

  // ---------------------------------------------------------------- gdb.c

  datatype Flow = Loop | End | Stop

  function FlowOf(v: Verdict): Flow {
    match v
    case Answer(_) => Loop
    case Leave(_, _) => End
    case Panic => Stop
    case Overrun => Stop
  }

  class Debugger {
    const end: word
    const link: Link
    const table: BreakpointTable
    const sendBuffer: array<char>
    /** The contents of `sendBuffer`. */
    ghost var send: string
    var phase: int
    var restoreStep: word
    var restoreContinue: word

    ghost const Repr: set<object> := link.Repr + {this, table, table.breakpoints, sendBuffer}

    ghost predicate Valid()
      reads Repr
    {
      && link.Valid() && table.Valid()
      && sendBuffer.Length == BUFFER_SIZE && send == sendBuffer[..]
      && sendBuffer != link.recvBuffer && sendBuffer != link.port.recvBuffer
      && StubShape(Now())
    }

    /** The state as a value. */
    ghost function Now(): Stub
      reads this, link, table
    {
      Stub(table.patch, phase, restoreStep, restoreContinue, link.buf, send)
    }

    constructor (end: word, mem: seq<byte>, wire: string)
      requires |mem| == WORD_SIZE
      ensures Valid() && fresh(Repr) && this.end == end
      ensures link.port.pending == wire && link.port.sent == ""
      ensures Now() == Booted(table.patch) && Sound(table.patch) && table.patch.mem == mem
      ensures Slots(table.patch.table) == map[]
    {
      this.end := end;
      link := new Link(wire);
      table := new BreakpointTable(mem);
      var buffer := NewBuffer();
      sendBuffer, send := buffer, buffer[..];
      phase, restoreStep, restoreContinue := 0, NO_ADDRESS, NO_ADDRESS;
      new;
      hide Blank, Sound, Slots, StubShape, Link.Valid, Port.Valid, BreakpointTable.Valid;
      BootedShape(table.patch);
    }

    /** `strcpy(gdb_send_buffer, text)` */
    method Reply(text: string)
      requires Valid() && |text| < BUFFER_SIZE - 1
      modifies this`send, sendBuffer
      ensures Valid() && Now() == Say(old(Now()), text)
    {
      CopyText(sendBuffer, text);
      send := sendBuffer[..];
    }

    /** The good case of `m`: every breakpoint is masked while memory is dumped. */
    method Dump(addr: word, length: word) returns (flow: Flow)
      requires Valid()
      modifies this`send, sendBuffer, table
      ensures Valid()
      ensures flow == FlowOf(ReadMemory(end, old(Now()), addr, length))
      ensures flow == Loop ==> Now() == ReadMemory(end, old(Now()), addr, length).s
    {
      hide Link.Valid, MaskAll, UnmaskAll, HexBytes, ShownBytes, Signed;
      if Signed(length) > 511 {
        // the dump would not fit the send buffer
        return Stop;
      }
      table.MaskAllBreakpoints();
      Mem2Hex(table.mem, end, addr, sendBuffer, Signed(length));
      send := sendBuffer[..];
      table.UnmaskAllBreakpoints();
      flow := Loop;
    }

    /** `m` */
    method Read(pkt: string) returns (flow: Flow)
      requires Valid() && |pkt| > 0
      modifies this`send, sendBuffer, table
      ensures Valid()
      ensures flow == FlowOf(CommandRead(end, old(Now()), pkt))
      ensures flow == Loop ==> Now() == CommandRead(end, old(Now()), pkt).s
    {
      hide Link.Valid, BreakpointTable.Valid, StubShape, ReadMemory, Say;
      flow := Loop;
      var n, addr, length, ptr;
      n, addr, ptr := Hex2Int(pkt, 1);
      if n != 0 {
        if At(pkt, ptr) == ',' {
          n, length, ptr := Hex2Int(pkt, ptr + 1);
          if n != 0 {
            flow := Dump(addr, length);
            return;
          }
        }
      }
      Reply("E01");
    }

    /** The good case of `Z` and `z`. */
    method Change(arm: bool, addr: word)
      requires Valid()
      modifies this`send, sendBuffer, table, table.breakpoints
      ensures Valid()
      ensures Now() == Say(old(Now()), "OK").(patch := if arm then Add(old(Now()).patch, addr)
                                                       else Remove(old(Now()).patch, addr))
    {
      hide Link.Valid, BreakpointTable.Valid, Add, Remove;
      if arm {
        table.AddBreakpoint(addr);
      } else {
        table.RemoveBreakpoint(addr);
      }
      Reply("OK");
    }

    /** `Z` and `z`; a kind other than 1 halts the machine. */
    method Point(pkt: string) returns (flow: Flow)
      requires Valid() && |pkt| > 0
      modifies this`send, sendBuffer, table, table.breakpoints
      ensures Valid()
      ensures flow == FlowOf(CommandPoint(old(Now()), pkt))
      ensures flow == Loop ==> Now() == CommandPoint(old(Now()), pkt).s
    {
      hide Link.Valid, BreakpointTable.Valid, Add, Remove, StubShape, Say, HexWord;
      flow := Loop;
      if At(pkt, 1) == '0' {
        if At(pkt, 2) == ',' {
          var n, addr, length, ptr;
          n, addr, ptr := Hex2Int(pkt, 3);
          if At(pkt, ptr) == ',' {
            n, length, ptr := Hex2Int(pkt, ptr + 1);
            if length != 1 {
              return Stop;
            }
            Change(pkt[0] == 'Z', addr);
            return;
          }
        }
      }
    }

    /** `vCont;s` and `vCont;c` */
    method Resume(how: Resumption, t: Regs) returns (t': Regs)
      requires Valid()
      modifies this`restoreStep, this`restoreContinue, this`phase, table
      ensures Valid()
      ensures ResumeAt(old(Now()), t, how) == Leave(Now(), t')
    {
      hide Link.Valid, BreakpointTable.Valid, Mask;
      t' := t;
      if how == Step {
        if Peek(t.eip) == INSN_BREAKPOINT {
          table.MaskBreakpoint(t.eip);
          restoreStep := t.eip;
        }
        t' := t.(eflags := SetTrapFlag(t.eflags));
      } else {
        if Peek(t.eip) == INSN_BREAKPOINT {
          table.MaskBreakpoint(t.eip);
          restoreContinue := t.eip;
          t' := t.(eflags := SetTrapFlag(t.eflags));
        } else {
          t' := t.(eflags := ClearTrapFlag(t.eflags));
        }
        phase := 2;
      }
    }

    method Execute(pkt: string, t: Regs) returns (flow: Flow, t': Regs)
      requires Valid()
      modifies this, sendBuffer, table, table.breakpoints
      ensures Valid()
      ensures flow == FlowOf(Dispatch(end, old(Now()), t, pkt))
      ensures flow == Loop ==> Dispatch(end, old(Now()), t, pkt) == Answer(Now()) && t' == t
      ensures flow == End ==> Dispatch(end, old(Now()), t, pkt) == Leave(Now(), t')
    {
      hide Link.Valid, BreakpointTable.Valid, CommandRead, CommandPoint, ResumeAt, WordsText, FixedReply, ParseResume;
      flow, t' := Loop, t;
      var c := At(pkt, 0);
      if c == 'g' {
        WriteRegisters(sendBuffer, t);
        send := sendBuffer[..];
      } else if c == 'm' {
        flow := Read(pkt);
      } else if c == 'Z' || c == 'z' {
        flow := Point(pkt);
      } else if ParseResume(pkt).Some? {
        t' := Resume(ParseResume(pkt).value, t);
        flow := End;
      } else if FixedReply(pkt) != "" {
        Reply(FixedReply(pkt));
      }
    }

    /** The loop of `gdb_converse`: a packet, its effect, its reply, until the program is resumed.
        `ok` is false when the loop is never left. */
    method Serve(t: Regs) returns (ok: bool, t': Regs)
      requires Valid()
      modifies Repr
      ensures ok ==> Valid()
      ensures match Session(end, old(Now()), t, old(link.port.pending), old(link.port.sent))
              case Hangs => !ok
              case Returns(s, t1, rest, out) =>
                ok && Now() == s && t' == t1 && link.port.pending == rest && link.port.sent == out
    {
      hide Link.Valid, BreakpointTable.Valid, Session;
      ghost var goal := Session(end, Now(), t, link.port.pending, link.port.sent);
      t' := t;
      while true
        invariant Valid()
        invariant goal == Session(end, Now(), t, link.port.pending, link.port.sent)
        decreases |link.port.pending|
      {
        var flow;
        flow, t' := ServeOne(t, goal);
        if flow != Loop {
          return flow == End, t';
        }
      }
    }

    /** One round of the loop. */
    method ServeOne(t: Regs, ghost goal: Ended) returns (flow: Flow, t': Regs)
      requires Valid() && goal == Session(end, Now(), t, link.port.pending, link.port.sent)
      modifies Repr
      ensures flow != Stop ==> Valid()
      ensures flow == Stop ==> goal == Hangs
      ensures flow == End ==> goal == Returns(Now(), t', link.port.pending, link.port.sent)
      ensures flow == Loop ==> goal == Session(end, Now(), t, link.port.pending, link.port.sent)
      ensures flow == Loop ==> |link.port.pending| < |old(link.port.pending)|
    {
      hide BreakpointTable.Valid, Port.Valid, Dispatch, Hunt, AfterPacket, Session, CString;
      t' := t;
      SessionStep(end, Now(), t, link.port.pending, link.port.sent);
      var ok, start := link.GetPacket();
      if !ok {
        return Stop, t;
      }
      sendBuffer[0] := '\0';
      send := send[0 := '\0'];
      ghost var v := Dispatch(end, Now(), t, CString(link.buf, start));
      assert goal == AfterPacket(end, v, t, link.port.pending, link.port.sent);
      flow, t' := Execute(CString(link.recvBuffer[..], start), t);
      flow := Acknowledge(goal, v, t, t', flow);
    }

    /** The reply to a packet, unless it ended the conversation. */
    method Acknowledge(ghost goal: Ended, ghost v: Verdict, ghost t: Regs, ghost t': Regs, flow: Flow)
      returns (flow': Flow)
      requires Valid() && flow == FlowOf(v) && (flow == Loop ==> v == Answer(Now()))
      requires flow == End ==> v == Leave(Now(), t')
      requires goal == AfterPacket(end, v, t, link.port.pending, link.port.sent)
      modifies link.port, link.port.recvBuffer
      ensures Valid()
      ensures flow' == Stop ==> goal == Hangs
      ensures flow' == End ==> goal == Returns(Now(), t', link.port.pending, link.port.sent)
      ensures flow' == Loop ==> goal == Session(end, Now(), t, link.port.pending, link.port.sent)
      ensures flow' == Loop ==> |link.port.pending| < |old(link.port.pending)|
      ensures flow' == Loop ==> flow == Loop
    {
      hide BreakpointTable.Valid, Port.Valid, Session, CString;
      flow' := flow;
      if flow == Loop {
        var ok := link.PutPacket(sendBuffer[..]);
        if !ok {
          flow' := Stop;
        }
      }
    }

    /** `gdb_converse` */
    method Converse(trapno: int, t: Regs) returns (ok: bool, t': Regs)
      requires Valid()
      modifies Repr
      ensures ok ==> Valid()
      ensures match Conversation(end, old(Now()), trapno, t, old(link.port.pending), old(link.port.sent))
              case Hangs => !ok
              case Returns(s, t1, rest, out) =>
                ok && Now() == s && t' == t1 && link.port.pending == rest && link.port.sent == out
    {
      hide Link.Valid, BreakpointTable.Valid, Session, Entered;
      var silent;
      silent, t' := Enter(trapno, t);
      if silent {
        return true, t';
      }
      StopReplyText();
      ok := link.PutPacket(STOP_REPLY + ['\0']);
      if ok {
        ok, t' := Serve(t');
      }
    }

    /** The start of `gdb_converse`, before the stop reply. */
    method Enter(trapno: int, t: Regs) returns (silent: bool, t': Regs)
      requires Valid()
      modifies this, table
      ensures Valid()
      ensures Entered(old(Now()), trapno, t) == (Now(), if silent then None else Some(t'))
      ensures silent ==> t' == t.(eflags := ClearTrapFlag(t.eflags))
    {
      hide Link.Valid, BreakpointTable.Valid, Unmask;
      silent, t' := false, t;
      if trapno == EXC_BP {
        t' := t'.(eip := Wrap(t'.eip - 1));
      } else if trapno == EXC_DB {
        if restoreContinue != NO_ADDRESS {
          table.UnmaskBreakpoint(restoreContinue);
          restoreContinue := NO_ADDRESS;
          return true, t'.(eflags := ClearTrapFlag(t'.eflags));
        }
        if restoreStep != NO_ADDRESS {
          table.UnmaskBreakpoint(restoreStep);
          restoreStep := NO_ADDRESS;
        }
      }
      if phase == 0 {
        t' := t'.(eip := Wrap(t'.eip + 1));
        phase := 1;
      }
    }

    function Peek(addr: word): (b: byte)
      reads Repr
      requires Valid()
      ensures b == table.patch.mem[addr]
    {
      table.mem[addr]
    }
  }

  /** The `g` reply: sixteen registers, no terminator. */
  method WriteRegisters(buffer: array<char>, t: Regs)
    requires buffer.Length == BUFFER_SIZE
    modifies buffer
    ensures buffer[..] == Splice(old(buffer[..]), 0, WordsText(RegisterList(t)))
  {
    hide Splice, WordsText, RegisterList;
    ghost var b := buffer[..];
    EmptyText(b);
    var buf := WriteNext(buffer, 0, t.eax, b, []);
    assert [] + [t.eax] == [t.eax];
    ghost var ws := [t.eax];
    buf := WriteNext(buffer, buf, t.ecx, b, ws);
    ws := ws + [t.ecx];
    buf := WriteNext(buffer, buf, t.edx, b, ws);
    ws := ws + [t.edx];
    buf := WriteNext(buffer, buf, t.ebx, b, ws);
    ws := ws + [t.ebx];
    buf := WriteNext(buffer, buf, t.esp, b, ws);
    ws := ws + [t.esp];
    buf := WriteNext(buffer, buf, t.ebp, b, ws);
    ws := ws + [t.ebp];
    buf := WriteNext(buffer, buf, t.esi, b, ws);
    ws := ws + [t.esi];
    buf := WriteNext(buffer, buf, t.edi, b, ws);
    ws := ws + [t.edi];
    buf := WriteNext(buffer, buf, t.eip, b, ws);
    ws := ws + [t.eip];
    buf := WriteNext(buffer, buf, t.eflags, b, ws);
    ws := ws + [t.eflags];
    buf := WriteNext(buffer, buf, t.cs, b, ws);
    ws := ws + [t.cs];
    buf := WriteNext(buffer, buf, t.ss, b, ws);
    ws := ws + [t.ss];
    buf := WriteNext(buffer, buf, t.ds, b, ws);
    ws := ws + [t.ds];
    buf := WriteNext(buffer, buf, t.es, b, ws);
    ws := ws + [t.es];
    buf := WriteNext(buffer, buf, t.fs, b, ws);
    ws := ws + [t.fs];
    buf := WriteNext(buffer, buf, t.gs, b, ws);
    ws := ws + [t.gs];
    ListOf(t, ws);
  }

  lemma ListOf(t: Regs, ws: seq<word>)
    requires ws == [t.eax] + [t.ecx] + [t.edx] + [t.ebx] + [t.esp] + [t.ebp] + [t.esi] + [t.edi]
                 + [t.eip] + [t.eflags] + [t.cs] + [t.ss] + [t.ds] + [t.es] + [t.fs] + [t.gs]
    ensures ws == RegisterList(t)
  {
  }

  lemma StopReplyText()
    ensures CString(STOP_REPLY + ['\0'], 0) == STOP_REPLY
  {
    CStringEnds(STOP_REPLY + ['\0'], 0, |STOP_REPLY|);
    assert (STOP_REPLY + ['\0'])[0..|STOP_REPLY|] == STOP_REPLY;
  }

  lemma EmptyText(b: string)
    ensures b == Splice(b, 0, WordsText([]))
  {
  }

  lemma BootedShape(patch: Patch)
    requires Sound(patch)
    ensures StubShape(Booted(patch))
  {
  }

  /** The initial values of the file-scope variables. */
  function Booted(patch: Patch): Stub {
    Stub(patch, 0, NO_ADDRESS, NO_ADDRESS, Blank(), Blank())
  }
}
