/** What the debugger keeps over whole runs of traps, packets and resumes, and what its replies show. */
module DebugRuns {
  import opened Words
  import opened HexText
  import opened Packets
  import opened Breakpoints
  import opened GdbStub

  // ---------------------------------------------------------------- one command

  /** No step over a breakpoint is under way, and every breakpoint is armed. */
  ghost predicate Settled(s: Stub) {
    StubShape(s) && Sound(s.patch) && s.restoreStep == NO_ADDRESS && s.restoreContinue == NO_ADDRESS
  }

  /** The address of the breakpoint being stepped over. */
  function Pending(s: Stub): word {
    if s.restoreStep != NO_ADDRESS then s.restoreStep else s.restoreContinue
  }

  /** Exactly one restore field names an address; the breakpoint there, and no other, is masked, and the byte
      it shows can be executed without trapping again. */
  ghost predicate Stepping(s: Stub) {
    && StubShape(s) && Distinct(s.patch.table)
    && (s.restoreStep == NO_ADDRESS) != (s.restoreContinue == NO_ADDRESS)
    && Listed(s.patch.table, Pending(s)) && s.patch.mem[Pending(s)] != INSN_BREAKPOINT
    && ArmedExcept(s.patch, Pending(s))
  }

  /** What holds whenever the program is about to run. */
  ghost predicate Resumable(s: Stub, t: Regs) {
    Settled(s) || (Stepping(s) && Pending(s) == t.eip && HasTrapFlag(t.eflags))
  }

  /** What a resume on a breakpoint instruction needs: that it hides another instruction, or, at the address
      that means `no address` in a restore field, that it does not. */
  predicate ResumeAllowed(s: Stub, t: Regs)
    requires StubShape(s)
  {
    s.patch.mem[t.eip] == INSN_BREAKPOINT ==>
      (Logical(s.patch, t.eip) == INSN_BREAKPOINT <==> t.eip == NO_ADDRESS)
  }

  /** What a debugger has to respect for its requests to leave the program as it was. */
  predicate CommandOk(s: Stub, t: Regs, pkt: string)
    requires StubShape(s)
  {
    if At(pkt, 0) == 'Z' then ParsePoint(pkt).Target? ==> AddAllowed(s.patch, ParsePoint(pkt).addr)
    else if At(pkt, 0) == 'z' then ParsePoint(pkt).Target? ==> RemoveAllowed(s.patch, ParsePoint(pkt).addr)
    else ParseResume(pkt).Some? ==> ResumeAllowed(s, t)
  }

  /** A resume leaves the program as it was and the stub ready for the next trap exactly under that
      condition. */
  lemma ResumeExact(s: Stub, t: Regs, how: Resumption)
    requires Settled(s)
    ensures var v := ResumeAt(s, t, how);
            Resumable(v.s, v.t) && SameProgram(s.patch, v.s.patch) <==> ResumeAllowed(s, t)
  {
    if ResumeAllowed(s, t) {
      ResumeKeeps(s, t, how);
    } else if t.eip == NO_ADDRESS {
      ResumeAtTheMarker(s, t, how);
    } else {
      ResumeOnOwnBreakpoint(s, t, how, t, t);
    }
  }

  /** A resume then masks at most the breakpoint under the program counter, names it in one restore field
      and steps over it; the byte the processor will fetch is the program's own. */
  lemma ResumeKeeps(s: Stub, t: Regs, how: Resumption)
    requires Settled(s) && ResumeAllowed(s, t)
    ensures var v := ResumeAt(s, t, how);
            && SameProgram(s.patch, v.s.patch) && v.s.patch.mem[t.eip] == Logical(s.patch, t.eip)
            && v.t == t.(eflags := v.t.eflags) && SameOtherFlags(v.t.eflags, t.eflags)
            && Resumable(v.s, v.t)
            && (Stepping(v.s) <==> s.patch.mem[t.eip] == INSN_BREAKPOINT && t.eip != NO_ADDRESS)
            && (how == Step ==> HasTrapFlag(v.t.eflags) && v.s.restoreContinue == NO_ADDRESS)
            && (how == Continue ==>
                  (HasTrapFlag(v.t.eflags) <==> s.patch.mem[t.eip] == INSN_BREAKPOINT) && v.s.restoreStep == NO_ADDRESS)
  {
    assert Listed(s.patch.table, t.eip) ==> s.patch.mem[t.eip] == INSN_BREAKPOINT;
    if s.patch.mem[t.eip] == INSN_BREAKPOINT {
      MaskOne(s.patch, t.eip);
    }
  }

  /** The marker as an address: a breakpoint at 0xFFFFFFFF is masked by the resume, but both restore fields
      say that there is nothing to restore, and no trap that comes next arms it again. */
  lemma ResumeAtTheMarker(s: Stub, t: Regs, how: Resumption)
    requires Settled(s) && t.eip == NO_ADDRESS && Listed(s.patch.table, NO_ADDRESS)
    requires Logical(s.patch, NO_ADDRESS) != INSN_BREAKPOINT
    ensures var v := ResumeAt(s, t, how);
            && v.s.restoreStep == NO_ADDRESS && v.s.restoreContinue == NO_ADDRESS
            && Listed(v.s.patch.table, NO_ADDRESS) && v.s.patch.mem[NO_ADDRESS] != INSN_BREAKPOINT
            && !Resumable(v.s, v.t)
            && forall trapno, u :: Entered(v.s, trapno, u).0.patch == v.s.patch
  {
    var i := Find(s.patch.table, NO_ADDRESS);
    assert s.patch.table[i].address == NO_ADDRESS && s.patch.mem[NO_ADDRESS] == INSN_BREAKPOINT;
  }

  /** A breakpoint instruction of the program's own: the resume names its address as if a breakpoint had been
      masked there, but the next trap is that of the instruction itself, which leaves the field pending. After
      `c`, the first debug exception that follows, a single step for one, is then swallowed: the stub returns
      without a word to the debugger. */
  lemma ResumeOnOwnBreakpoint(s: Stub, t: Regs, how: Resumption, u: Regs, u': Regs)
    requires Settled(s) && t.eip != NO_ADDRESS
    requires s.patch.mem[t.eip] == INSN_BREAKPOINT && Logical(s.patch, t.eip) == INSN_BREAKPOINT
    ensures var v := ResumeAt(s, t, how);
            var (s1, u1) := Entered(v.s, EXC_BP, u);
            && !Resumable(v.s, v.t) && HasTrapFlag(v.t.eflags)
            && (t.eip != 0 ==> v.s.patch.mem[t.eip] == INSN_BREAKPOINT)
            && u1.Some? && Pending(s1) == t.eip
            && (how == Continue ==> Entered(s1, EXC_DB, u').1.None?)
  {
  }

  /** The null address: with a free slot in the table, the byte that slot saved last is written over a
      breakpoint instruction of the program's own at 0. */
  lemma ResumeAtNull(s: Stub, t: Regs, how: Resumption)
    requires Settled(s) && t.eip == 0 && s.patch.mem[0] == INSN_BREAKPOINT
    requires Find(s.patch.table, 0) < MAX_BREAKPOINT && s.patch.table[Find(s.patch.table, 0)].saved != INSN_BREAKPOINT
    ensures var v := ResumeAt(s, t, how);
            Logical(s.patch, 0) == INSN_BREAKPOINT && Logical(v.s.patch, 0) != INSN_BREAKPOINT
  {
  }

  /** A request that is answered leaves the stub settled, one that resumes the program leaves it resumable,
      and both leave the program as it was, exactly when the request respects `CommandOk`. */
  lemma CommandExact(end: word, s: Stub, t: Regs, pkt: string)
    requires Settled(s)
    ensures var v := Command(end, s, t, pkt);
            && (v.Answer? ==> (Settled(v.s) && SameProgram(s.patch, v.s.patch) <==> CommandOk(s, t, pkt)))
            && (v.Leave? ==> (Resumable(v.s, v.t) && SameProgram(s.patch, v.s.patch) <==> CommandOk(s, t, pkt)))
  {
    var s0 := s.(sendBuf := s.sendBuf[0 := '\0']);
    var c := At(pkt, 0);
    if c == 'm' {
      MaskAllShowsTheProgram(s.patch);
    } else if c == 'Z' || c == 'z' {
      if ParsePoint(pkt).Target? {
        AddExact(s.patch, ParsePoint(pkt).addr);
        RemoveExact(s.patch, ParsePoint(pkt).addr);
      }
    } else if ParseResume(pkt).Some? {
      ResumeExact(s0, t, ParseResume(pkt).value);
    }
  }

  // ---------------------------------------------------------------- one conversation

  /** Every packet of a session is respectful. */
  predicate Orderly(end: word, s: Stub, t: Regs, input: string, out: string)
    requires StubShape(s)
    decreases |input|
  {
    match Hunt(s.recvBuf, input, out)
    case Waiting => true
    case Delivered(buf, start, rest, out1) =>
      var s0, pkt := s.(recvBuf := buf), CString(buf, start);
      CommandOk(s0, t, pkt) &&
      match Command(end, s0, t, pkt)
      case Panic => true
      case Overrun => true
      case Leave(_, _) => true
      case Answer(s1) =>
        PutShortens(CString(s1.sendBuf, 0), rest, out1);
        match Put(CString(s1.sendBuf, 0), rest, out1)
        case Unanswered => true
        case Acked(rest2, out2) => Orderly(end, s1, t, rest2, out2)
  }

  /** What holds whenever the program has trapped. */
  ghost predicate Trappable(s: Stub, trapno: int) {
    Settled(s) || (Stepping(s) && trapno == EXC_DB)
  }

  lemma {:induction false} SessionKeeps(end: word, s: Stub, t: Regs, input: string, out: string)
    requires Settled(s) && Orderly(end, s, t, input, out)
    ensures var e := Session(end, s, t, input, out);
            e.Returns? ==>
              && Resumable(e.s, e.t) && SameProgram(s.patch, e.s.patch)
              && e.t == t.(eflags := e.t.eflags) && e.s.patch.mem[t.eip] == Logical(s.patch, t.eip)
    decreases |input|
  {
    match Hunt(s.recvBuf, input, out)
    case Waiting =>
    case Delivered(buf, start, rest, out1) =>
      var s0, pkt := s.(recvBuf := buf), CString(buf, start);
      match Command(end, s0, t, pkt)
      case Panic =>
      case Overrun =>
      case Leave(s1, t1) =>
        ResumeKeeps(s0.(sendBuf := s0.sendBuf[0 := '\0']), t, ParseResume(pkt).value);
      case Answer(s1) =>
        CommandExact(end, s0, t, pkt);
        PutShortens(CString(s1.sendBuf, 0), rest, out1);
        match Put(CString(s1.sendBuf, 0), rest, out1)
        case Unanswered =>
        case Acked(rest2, out2) =>
          SessionKeeps(end, s1, t, rest2, out2);
  }

  /** At every packet of a session, whether or not it ever ends: both restore fields are -1, every
      breakpoint is armed, and the program is that of `p`. */
  ghost predicate SettledThroughout(end: word, s: Stub, t: Regs, input: string, out: string, p: Patch)
    requires StubShape(s) && Shape(p)
    decreases |input|
  {
    && Settled(s) && SameProgram(p, s.patch)
    && match Hunt(s.recvBuf, input, out)
       case Waiting => true
       case Delivered(buf, start, rest, out1) =>
         match Command(end, s.(recvBuf := buf), t, CString(buf, start))
         case Panic => true
         case Overrun => true
         case Leave(_, _) => true
         case Answer(s1) =>
           PutShortens(CString(s1.sendBuf, 0), rest, out1);
           match Put(CString(s1.sendBuf, 0), rest, out1)
           case Unanswered => true
           case Acked(rest2, out2) => SettledThroughout(end, s1, t, rest2, out2, p)
  }

  lemma {:induction false} EveryPacketFindsItSettled(end: word, s: Stub, t: Regs, input: string, out: string, p: Patch)
    requires Settled(s) && Orderly(end, s, t, input, out) && Shape(p) && SameProgram(p, s.patch)
    ensures SettledThroughout(end, s, t, input, out, p)
    decreases |input|
  {
    match Hunt(s.recvBuf, input, out)
    case Waiting =>
    case Delivered(buf, start, rest, out1) =>
      var s0, pkt := s.(recvBuf := buf), CString(buf, start);
      match Command(end, s0, t, pkt)
      case Panic =>
      case Overrun =>
      case Leave(_, _) =>
      case Answer(s1) =>
        CommandExact(end, s0, t, pkt);
        PutShortens(CString(s1.sendBuf, 0), rest, out1);
        match Put(CString(s1.sendBuf, 0), rest, out1)
        case Unanswered =>
        case Acked(rest2, out2) =>
          EveryPacketFindsItSettled(end, s1, t, rest2, out2, p);
  }

  /** Whatever brought the program here, the conversation starts settled, with the program as it was. */
  lemma EntryKeeps(s: Stub, trapno: int, t: Regs)
    requires Trappable(s, trapno)
    ensures var (s1, _) := Entered(s, trapno, t);
            Settled(s1) && SameProgram(s.patch, s1.patch) && s1.recvBuf == s.recvBuf
  {
    if Stepping(s) {
      UnmaskOne(s.patch, Pending(s));
    }
  }

  /** The step over a breakpoint on continue is silent: nothing is read or sent, the breakpoint is armed
      again, and the program goes on where it is with no more than the trap flag taken back. */
  lemma ContinueIsSilent(end: word, s: Stub, t: Regs, input: string, out: string)
    requires Stepping(s) && s.restoreContinue != NO_ADDRESS
    ensures var e := Conversation(end, s, EXC_DB, t, input, out);
            && e.Returns? && e.rest == input && e.out == out
            && Settled(e.s) && SameProgram(s.patch, e.s.patch)
            && e.t == t.(eflags := e.t.eflags)
            && !HasTrapFlag(e.t.eflags) && SameOtherFlags(e.t.eflags, t.eflags)
  {
    UnmaskOne(s.patch, Pending(s));
  }

  predicate OrderlyTrap(end: word, s: Stub, trapno: int, t: Regs, input: string)
    requires StubShape(s)
  {
    match Entered(s, trapno, t)
    case (_, None) => true
    case (s1, Some(t1)) =>
      match Put(STOP_REPLY, input, "")
      case Unanswered => true
      case Acked(rest, out) => Orderly(end, s1, t1, rest, out)
  }

  /** The program counter a debugger is shown: after a breakpoint that of the breakpoint, except that the
      very first stop is behind the instruction that caused it. */
  function StoppedAt(s: Stub, trapno: int, eip: word): word {
    var at := if trapno == EXC_BP then Wrap(eip - 1) else eip;
    if s.phase == 0 then Wrap(at + 1) else at
  }

  /** The debug exception after a `c` over a breakpoint. */
  predicate IsSilent(s: Stub, trapno: int) {
    trapno == EXC_DB && s.restoreContinue != NO_ADDRESS
  }

  lemma EnteredRegisters(s: Stub, trapno: int, t: Regs)
    requires StubShape(s)
    ensures Entered(s, trapno, t).1 ==
            if IsSilent(s, trapno) then None else Some(t.(eip := StoppedAt(s, trapno, t.eip)))
  {
  }

  /** The program counter the program goes on with. */
  function ResumedAt(s: Stub, trapno: int, eip: word): word {
    if IsSilent(s, trapno) then eip else StoppedAt(s, trapno, eip)
  }

  /** A whole conversation keeps the program, and of the registers everything but the flags and, unless it is
      silent, the program counter, which goes to where the debugger was shown it to be. */
  lemma ConversationKeeps(end: word, s: Stub, trapno: int, t: Regs, input: string)
    requires Trappable(s, trapno) && OrderlyTrap(end, s, trapno, t, input)
    ensures var e := Conversation(end, s, trapno, t, input, "");
            e.Returns? ==>
              && Resumable(e.s, e.t) && SameProgram(s.patch, e.s.patch)
              && e.t == t.(eip := ResumedAt(s, trapno, t.eip), eflags := e.t.eflags)
              && (!IsSilent(s, trapno) ==> e.s.patch.mem[e.t.eip] == Logical(s.patch, e.t.eip))
  {
    EntryKeeps(s, trapno, t);
    EnteredRegisters(s, trapno, t);
    var (s1, t1) := Entered(s, trapno, t);
    assert StubShape(s);
    hide Entered, Session, Orderly, Settled, Stepping, Trappable, StubShape, StoppedAt, Put, Logical;
    if t1.Some? && Put(STOP_REPLY, input, "").Acked? {
      var a := Put(STOP_REPLY, input, "");
      SessionKeeps(end, s1, t1.value, a.rest, a.out);
    }
  }

  /** That is the interrupted program counter for a silent conversation, for the very first one if a
      breakpoint instruction started it, and for later ones if one did not; a first stop for any other reason
      skips a byte of the program. */
  lemma ProgramCounterIsKept(s: Stub, trapno: int, eip: word)
    ensures ResumedAt(s, trapno, eip) == eip <==> IsSilent(s, trapno) || (trapno == EXC_BP <==> s.phase == 0)
    ensures trapno == EXC_DB && s.phase == 0 && !IsSilent(s, trapno) ==> ResumedAt(s, trapno, eip) == Wrap(eip + 1)
  {
  }

  // ---------------------------------------------------------------- whole runs

  datatype Mode = Running | Trapped(trapno: int)

  datatype Moment = Moment(s: Stub, t: Regs, mode: Mode)

  /** The program runs until it traps: it may change any register and any byte that carries no
      breakpoint; with the trap flag set it is stopped after one instruction, by a breakpoint instruction as
      such and by a debug exception otherwise. */
  ghost predicate ProgramRuns(m: Moment, n: Moment) {
    && m.mode.Running? && n.mode.Trapped?
    && n.s == m.s.(patch := n.s.patch) && n.s.patch.table == m.s.patch.table
    && Shape(m.s.patch) && |n.s.patch.mem| == WORD_SIZE
    && (forall a: word :: Listed(m.s.patch.table, a) ==> n.s.patch.mem[a] == m.s.patch.mem[a])
    && (HasTrapFlag(m.t.eflags) ==>
          n.mode.trapno == if m.s.patch.mem[m.t.eip] == INSN_BREAKPOINT then EXC_BP else EXC_DB)
  }

  /** The stub handles a trap with `line` on the wire, and resumes the program. */
  ghost predicate DebuggerRuns(end: word, m: Moment, n: Moment, line: string) {
    && m.mode.Trapped? && n.mode.Running? && StubShape(m.s)
    && OrderlyTrap(end, m.s, m.mode.trapno, m.t, line)
    && var e := Conversation(end, m.s, m.mode.trapno, m.t, line, "");
       e.Returns? && n.s == e.s && n.t == e.t
  }

  /** A run of the machine from boot; `lines[i]` is what the debugger says in step `i`. */
  ghost predicate Run(end: word, run: seq<Moment>, lines: seq<string>) {
    && |run| == |lines| + 1
    && run[0].mode == Running && Sound(run[0].s.patch) && run[0].s == Booted(run[0].s.patch)
    && forall i :: 0 <= i < |lines| ==>
         ProgramRuns(run[i], run[i + 1]) || DebuggerRuns(end, run[i], run[i + 1], lines[i])
  }

  lemma StepOfRun(end: word, run: seq<Moment>, lines: seq<string>, i: nat)
    requires Run(end, run, lines) && i < |lines|
    ensures ProgramRuns(run[i], run[i + 1]) || DebuggerRuns(end, run[i], run[i + 1], lines[i])
    ensures DebuggerRuns(end, run[i], run[i + 1], lines[i]) ==> StubShape(run[i].s)
  {
  }

  ghost predicate Safe(m: Moment) {
    match m.mode
    case Running => Resumable(m.s, m.t)
    case Trapped(trapno) => Trappable(m.s, trapno)
  }

  lemma ProgramKeeps(m: Moment, n: Moment)
    requires Safe(m) && ProgramRuns(m, n)
    ensures Safe(n)
  {
    var p, q := m.s.patch, n.s.patch;
    forall i | 0 <= i < MAX_BREAKPOINT && p.table[i].address != 0
      ensures q.mem[p.table[i].address] == p.mem[p.table[i].address]
    {
      FindListed(p.table, i);
    }
  }

  lemma StepKeeps(end: word, m: Moment, n: Moment, line: string)
    requires Safe(m) && (ProgramRuns(m, n) || DebuggerRuns(end, m, n, line))
    ensures Safe(n)
    ensures m.mode.Trapped? ==> SameProgram(m.s.patch, n.s.patch)
  {
    if ProgramRuns(m, n) {
      ProgramKeeps(m, n);
    } else {
      ConversationKeeps(end, m.s, m.mode.trapno, m.t, line);
    }
  }

  /** Over every run, the debugger is invisible: at every moment the breakpoints are armed but for the
      one being stepped over with the trap flag set, and no step of the stub changes a byte of the
      program as the program would see it. */
  lemma {:induction false} DebuggerIsInvisible(end: word, run: seq<Moment>, lines: seq<string>, i: nat)
    requires Run(end, run, lines) && i < |run|
    ensures Safe(run[i])
    ensures i < |lines| && run[i].mode.Trapped? ==> SameProgram(run[i].s.patch, run[i + 1].s.patch)
  {
    hide Safe, ProgramRuns, DebuggerRuns;
    if i == 0 {
      BootIsSafe(end, run, lines);
    } else {
      DebuggerIsInvisible(end, run, lines, i - 1);
      StepKeeps(end, run[i - 1], run[i], lines[i - 1]);
    }
    if i < |lines| {
      StepKeeps(end, run[i], run[i + 1], lines[i]);
    }
  }

  lemma BootIsSafe(end: word, run: seq<Moment>, lines: seq<string>)
    requires Run(end, run, lines)
    ensures Safe(run[0])
  {
  }

  /** And so inside every conversation of a run, one that never ends included, with whatever an orderly
      debugger says: both restore fields are -1 and all breakpoints armed at every packet. */
  lemma PacketsFindItSettled(end: word, run: seq<Moment>, lines: seq<string>, i: nat, line: string)
    requires Run(end, run, lines) && i < |run| && run[i].mode.Trapped?
    requires StubShape(run[i].s) && OrderlyTrap(end, run[i].s, run[i].mode.trapno, run[i].t, line)
    ensures var (s1, t1) := Entered(run[i].s, run[i].mode.trapno, run[i].t);
            var a := Put(STOP_REPLY, line, "");
            t1.Some? && a.Acked? ==> SettledThroughout(end, s1, t1.value, a.rest, a.out, run[i].s.patch)
  {
    var m := run[i];
    DebuggerIsInvisible(end, run, lines, i);
    assert Trappable(m.s, m.mode.trapno);
    hide Run, Trappable;
    EntryKeeps(m.s, m.mode.trapno, m.t);
    var (s1, t1) := Entered(m.s, m.mode.trapno, m.t);
    var a := Put(STOP_REPLY, line, "");
    hide Entered, Settled, SameProgram, SettledThroughout, Orderly, Put;
    if t1.Some? && a.Acked? {
      EveryPacketFindsItSettled(end, s1, t1.value, a.rest, a.out, m.s.patch);
    }
  }

  /** Whenever the program is resumed with the trap flag clear, every breakpoint is armed. */
  lemma FreeRunIsArmed(end: word, run: seq<Moment>, lines: seq<string>, i: nat)
    requires Run(end, run, lines) && i < |run|
    requires run[i].mode.Running? && !HasTrapFlag(run[i].t.eflags)
    ensures Sound(run[i].s.patch)
  {
    DebuggerIsInvisible(end, run, lines, i);
  }

  // ---------------------------------------------------------------- what the replies show

  /** The program's bytes in a range of addresses, which wraps around. */
  function ProgramBytes(p: Patch, addr: word, n: nat): (bs: seq<byte>)
    requires Shape(p)
    ensures |bs| == n
    ensures forall i :: 0 <= i < n ==> bs[i] == Logical(p, Wrap(addr + i))
  {
    seq<byte>(n, i => Logical(p, Wrap(addr + i)))
  }

  lemma ShownIsTheProgram(end: word, p: Patch, addr: word, n: nat)
    requires Sound(p) && 0 < addr < end
    ensures ShownBytes(MaskAll(p.table, p.mem), end, addr, n) == ProgramBytes(p, addr, n)
  {
    MaskAllShowsTheProgram(p);
    var masked := MaskAll(p.table, p.mem);
    var shown := ShownBytes(masked, end, addr, n);
    forall i | 0 <= i < n
      ensures shown[i] == ProgramBytes(p, addr, n)[i]
    {
      assert shown[i] == masked[Wrap(addr + i)];
    }
  }

  /** What a dump request does. */
  lemma ReadReply(end: word, s: Stub, t: Regs, pkt: string, addr: word, length: word)
    requires Settled(s) && At(pkt, 0) == 'm' && ParseRead(pkt) == Some((addr, length)) && length <= 511
    ensures var text := HexBytes(ShownBytes(MaskAll(s.patch.table, s.patch.mem), end, addr, length));
            Command(end, s, t, pkt) == Answer(s.(sendBuf := StrCpy(s.sendBuf[0 := '\0'], text)))
  {
    MaskAllShowsTheProgram(s.patch);
    hide MaskAll, UnmaskAll, Sound, StrCpy, HexBytes, ShownBytes, ParseRead;
  }

  /** An `m` reply decodes to the program's bytes, breakpoints hidden, and the request changes nothing. */
  lemma ReadShowsTheProgram(end: word, s: Stub, t: Regs, pkt: string, addr: word, length: word)
    requires Settled(s) && At(pkt, 0) == 'm' && ParseRead(pkt) == Some((addr, length))
    requires 0 < addr < end && length <= 511
    ensures var v := Command(end, s, t, pkt);
            && v.Answer? && v.s == s.(sendBuf := v.s.sendBuf)
            && DecodeBytes(CString(v.s.sendBuf, 0)) == Some(ProgramBytes(s.patch, addr, length))
  {
    ReadReply(end, s, t, pkt, addr, length);
    ShownIsTheProgram(end, s.patch, addr, length);
    hide Command, MaskAll, ShownBytes, ParseRead, DecodeBytes, HexBytes, StrCpy, CString, Sound;
    var shown := ProgramBytes(s.patch, addr, length);
    DecodeHexBytes(shown);
    DigitsAreText(s.sendBuf[0 := '\0'], HexBytes(shown));
  }

  lemma DigitsAreText(buf: string, text: string)
    requires |text| < |buf| && IsHex(text)
    ensures CString(StrCpy(buf, text), 0) == text
  {
    TextOf(buf, text);
  }

  /** The first 128 characters of a `g` reply decode to the registers, in the debugger's order. */
  lemma RegistersReadBack(end: word, s: Stub, t: Regs, pkt: string)
    requires StubShape(s) && At(pkt, 0) == 'g'
    ensures var v := Command(end, s, t, pkt);
            && v.Answer? && v.s.patch == s.patch && |CString(v.s.sendBuf, 0)| >= 128
            && DecodeWords(CString(v.s.sendBuf, 0)[..128]) == Some(RegisterList(t))
            && (|CString(v.s.sendBuf, 0)| == 128 <==> s.sendBuf[128] == '\0')
  {
    var text := WordsText(RegisterList(t));
    var b := Splice(s.sendBuf[0 := '\0'], 0, text);
    assert Command(end, s, t, pkt) == Answer(s.(sendBuf := b));
    DecodeWordsText(RegisterList(t));
    TextInFront(s.sendBuf, text, b);
    hide Command, DecodeWords, WordsText, RegisterList, CString, Splice;
  }

  /** What a C string shows of a buffer whose first 128 characters are digits. */
  lemma TextInFront(before: string, text: string, b: string)
    requires |before| == BUFFER_SIZE && |text| == 128 && IsHex(text) && b == Splice(before[0 := '\0'], 0, text)
    ensures |CString(b, 0)| >= 128 && CString(b, 0)[..128] == text
    ensures |CString(b, 0)| == 128 <==> before[128] == '\0'
  {
    assert forall i :: 0 <= i < 128 ==> b[i] == text[i] && HexValue(text[i]) >= 0;
    assert b[128] == before[128];
    CStringReaches(b, 0, 128);
    var reply := CString(b, 0);
    assert reply[..128] == text;
    assert |reply| > 128 ==> reply[128] == b[128];
  }

  /** The missing terminator shows: after a dump of 65 bytes or more, the `g` reply runs on into what is
      left of the dump. */
  lemma DumpTailsTheRegisters(end: word, s: Stub, t: Regs, read: string, addr: word, length: word, ask: string)
    requires Settled(s) && At(read, 0) == 'm' && ParseRead(read) == Some((addr, length))
    requires 65 <= length <= 511 && At(ask, 0) == 'g'
    ensures var s1 := Command(end, s, t, read).s;
            |CString(Command(end, s1, t, ask).s.sendBuf, 0)| > 128
  {
    ReadReply(end, s, t, read, addr, length);
    var s1 := Command(end, s, t, read).s;
    var text := HexBytes(ShownBytes(MaskAll(s.patch.table, s.patch.mem), end, addr, length));
    DumpGoesOn(s.sendBuf[0 := '\0'], text);
    RegistersReadBack(end, s1, t, ask);
    hide *;
  }

  lemma DumpGoesOn(buf: string, text: string)
    requires 128 < |text| < |buf| && IsHex(text)
    ensures StrCpy(buf, text)[128] != '\0'
  {
    assert StrCpy(buf, text)[128] == text[128] && HexValue(text[128]) >= 0;
  }

  // ---------------------------------------------------------------- a request and its reply on the wire

  function Exchanged(end: word, v: Verdict, t: Regs, rest: string, out: string): Ended
    requires v.Answer? ==> StubShape(v.s)
  {
    match v
    case Panic => Hangs
    case Overrun => Hangs
    case Leave(s1, t1) => Returns(s1, t1, "+" + rest, out)
    case Answer(s1) => Session(end, s1, t, rest, out + Frame(CString(s1.sendBuf, 0)))
  }

  /** A debugger that frames a request, and acknowledges the reply, gets '+' and the framed reply, and
      the stub is left where the request took it. */
  lemma Exchange(end: word, s: Stub, t: Regs, cmd: string, rest: string, out: string)
    requires StubShape(s) && Clean(cmd) && |cmd| < BUFFER_SIZE - 1 && Third(s.recvBuf, cmd) != ':'
    requires forall i :: 0 <= i < |cmd| ==> cmd[i] != '\0'
    ensures var s0 := s.(recvBuf := StrCpy(s.recvBuf, cmd));
            Session(end, s, t, Frame(cmd) + ("+" + rest), out) ==
            Exchanged(end, Command(end, s0, t, cmd), t, rest, out + "+")
  {
    FrameRoundTrip(s.recvBuf, cmd, "+" + rest, out);
    SessionStep(end, s, t, Frame(cmd) + ("+" + rest), out);
    var s0 := s.(recvBuf := StrCpy(s.recvBuf, cmd));
    if Command(end, s0, t, cmd).Answer? {
      var text := CString(Command(end, s0, t, cmd).s.sendBuf, 0);
      PutStep(text, "+" + rest, out + "+");
      assert ("+" + rest)[1..] == rest;
    }
  }
}
